/**
 The hand-over of jobs between the GPUs and the stand-in CPU threads
 (src/shared.rs, src/worker.rs), as interleaved steps: the stratum thread that
 publishes and clears jobs, the GPU workers that claim and release a proof of
 work, the stall guard, and the stand-ins that wait, look and sleep. Every
 atomic access of the code that another thread can come between is a step of
 its own; a stretch under the job's lock is one step.
 */
module Handover {
  import opened Machine

  datatype PowAlgo = Sha256d | Sha3t | Bc3Hash

  function Index(a: PowAlgo): (i: nat)
    ensures i < 3
  {
    match a case Sha256d => 0 case Sha3t => 1 case Bc3Hash => 2
  }

  /** Which proofs of work the GPUs have a kernel for, and how long a card may finish nothing. */
  datatype Config = Config(kernels: set<PowAlgo>, limit: nat)

  /** `kernel_supports`: BC3Hash alone. */
  const KERNELS: set<PowAlgo> := {Bc3Hash}

  // ----- The threads -----

  /** A GPU worker inside `GpuCapability::set`, by what it does next. */
  datatype GpuPc =
    | GIdle
    | GStamp(a: PowAlgo)              // store the time of the claim
    | GBit(a: PowAlgo, up: bool)      // set or clear the slot's claim bit
    | GCount(a: PowAlgo, up: bool)    // add to or take from `gpu_capable`
    | GCheck(a: PowAlgo)              // `capability_changed`: is it the current one?
    | GNudge                          // bump the generation under the job's lock
    | GNotify

  datatype Gpu = Gpu(held: set<PowAlgo>, pc: GpuPc)

  /** What `check_gpu_stalls` has read so far; the last three as they were when it began. */
  datatype Scan = Scan(
    algo: Option<PowAlgo>, now: nat, hasJob: bool, since: nat, slot: nat, changed: bool,
    stamps: seq<nat>, claimedAts: seq<nat>, jobSince: nat)

  datatype GuardPc =
    | VIdle
    | VAlgo(s: Scan)
    | VHasJob(s: Scan)
    | VSince(s: Scan)
    | VClaims(s: Scan)
    | VStamp(s: Scan, claims: set<PowAlgo>)
    | VClaimedAt(s: Scan, stamp: nat)
    | VStore(s: Scan, mark: nat, resumed: bool)
    | VCheck(a: PowAlgo)
    | VNudge
    | VNotify

  datatype StratumPc =
    | SIdle
    | SSlot(a: PowAlgo)               // the job into the slot and the bump, under the lock
    | SNotify
    | SBump                           // `clear_job`'s bump, after the slot is empty

  /**
   A thread that waits for jobs - a stand-in, another CPU thread, a GPU worker;
   `gpus`: it sat the job of generation `seen` out because the GPUs had it.
   */
  datatype CpuPc =
    | CWait(seen: Option<nat>, gpus: bool)       // take the lock and look
    | CAsleep(seen: Option<nat>, gpus: bool)     // on the condvar
    | CCapable(gen: nat, a: PowAlgo)             // `gpus_mine`: load `gpu_capable`
    | CStalled(gen: nat, a: PowAlgo, cap: int, slot: nat, aside: nat)
    | CClaims(gen: nat, a: PowAlgo, cap: int, slot: nat, aside: nat)
    | CMine(gen: nat)

  /** What the guard did to a slot's mark; `now`: the time its check went by. */
  datatype Mark =
    | Stalled(slot: nat, now: nat)
    | Resumed(slot: nat)
    | Dropped(slot: nat)              // a mark taken off a card that holds nothing

  datatype State = State(
    generation: nat, job: Option<PowAlgo>, current: Option<PowAlgo>, jobSince: nat,
    capable: seq<int>, claims: seq<set<PowAlgo>>, claimedAt: seq<nat>, stalled: seq<nat>, stamp: seq<nat>,
    clock: nat, gpus: seq<Gpu>, guard: GuardPc, stratum: StratumPc, cpus: seq<CpuPc>, marks: seq<Mark>)

  datatype Event =
    | Tick(d: nat)
    | Launch(slot: nat)                          // a launch of the card comes back
    | GpuSet(slot: nat, a: PowAlgo, up: bool)    // `set` is called
    | GpuStep(slot: nat)
    | GuardStep
    | Publish(a: PowAlgo)
    | Clear
    | StratumStep
    | CpuStep(thread: nat, choice: bool, standIn: bool)   // `standIn`: it has to ask whether the GPUs mine
    | Wake(thread: nat)                          // spurious

  function Init(gpus: nat, cpus: nat): State
  {
    State(0, None, None, 0, [0, 0, 0], seq(gpus, _ => {}), seq(gpus, _ => 0), seq(gpus, _ => 0), seq(gpus, _ => 0),
          0, seq(gpus, _ => Gpu({}, GIdle)), VIdle, SIdle, seq(cpus, _ => CWait(None, false)), [])
  }

  // ----- The steps -----

  predicate Shaped(s: State)
  {
    |s.capable| == 3 && |s.gpus| == |s.claims| == |s.claimedAt| == |s.stalled| == |s.stamp|
  }

  predicate AlikeShaped(s: State, s': State)
  {
    Shaped(s) && Shaped(s') && |s'.gpus| == |s.gpus| && |s'.cpus| == |s.cpus|
  }

  function SetGpu(s: State, k: nat, pc: GpuPc): State
    requires k < |s.gpus|
  {
    s.(gpus := s.gpus[k := s.gpus[k].(pc := pc)])
  }

  function NotifyAll(s: State): State
  {
    s.(cpus := seq(|s.cpus|, i requires 0 <= i < |s.cpus| =>
      match s.cpus[i] case CAsleep(seen, gpus) => CWait(seen, gpus) case pc => pc))
  }

  function GpuNext(s: State, k: nat): (s': State)
    requires Shaped(s) && k < |s.gpus|
    ensures AlikeShaped(s, s')
  {
    match s.gpus[k].pc
    case GIdle => s
    case GStamp(a) => SetGpu(s, k, GBit(a, true)).(claimedAt := s.claimedAt[k := s.clock])
    case GBit(a, up) =>
      SetGpu(s, k, GCount(a, up)).(claims := s.claims[k := if up then s.claims[k] + {a} else s.claims[k] - {a}])
    case GCount(a, up) =>
      SetGpu(s, k, GCheck(a)).(capable := s.capable[Index(a) := s.capable[Index(a)] + if up then 1 else -1])
    case GCheck(a) => SetGpu(s, k, if s.current == Some(a) then GNudge else GIdle)
    case GNudge => if s.job.None? then SetGpu(s, k, GIdle) else SetGpu(s, k, GNotify).(generation := s.generation + 1)
    case GNotify => NotifyAll(SetGpu(s, k, GIdle))
  }

  /** `check_gpu_stalls` moves on from a slot. */
  function NextSlot(s: Scan, changed: bool): GuardPc
  {
    VClaims(s.(slot := s.slot + 1, changed := s.changed || changed))
  }

  function GuardNext(cfg: Config, s: State): (s': State)
    requires Shaped(s)
    ensures AlikeShaped(s, s')
  {
    match s.guard
    case VIdle => s.(guard := VAlgo(Scan(None, s.clock, false, 0, 0, false, s.stamp, s.claimedAt, s.jobSince)))
    case VAlgo(c) => s.(guard := VHasJob(c.(algo := s.current)))
    case VHasJob(c) => s.(guard := VSince(c.(hasJob := s.job.Some?)))
    case VSince(c) => s.(guard := VClaims(c.(since := s.jobSince)))
    case VClaims(c) =>
      if c.slot < |s.gpus| then s.(guard := VStamp(c, s.claims[c.slot]))
      else if c.changed && c.algo.Some? then s.(guard := VCheck(c.algo.value))
      else s.(guard := VIdle)
    case VStamp(c, claims) =>
      if c.slot >= |s.gpus| then s.(guard := VIdle) else
      var stamp, since := s.stamp[c.slot], s.stalled[c.slot];
      if since != 0 then
        if stamp > since || claims == {} then s.(guard := VStore(c, 0, claims != {}))
        else s.(guard := NextSlot(c, false))
      else if c.algo.None? || !c.hasJob || c.algo.value !in claims then s.(guard := NextSlot(c, false))
      else s.(guard := VClaimedAt(c, stamp))
    case VClaimedAt(c, stamp) =>
      if c.slot >= |s.gpus| then s.(guard := VIdle) else
      var last := Max(stamp, Max(s.claimedAt[c.slot], c.since));
      if c.now > last && c.now - last > cfg.limit then s.(guard := VStore(c, Max(c.now, 1), false))
      else s.(guard := NextSlot(c, false))
    case VStore(c, mark, resumed) =>
      if c.slot >= |s.gpus| then s.(guard := VIdle) else
      var m := if mark != 0 then Stalled(c.slot, c.now) else if resumed then Resumed(c.slot) else Dropped(c.slot);
      s.(stalled := s.stalled[c.slot := mark], marks := s.marks + [m], guard := NextSlot(c, mark != 0 || resumed))
    case VCheck(a) => s.(guard := if s.current == Some(a) then VNudge else VIdle)
    case VNudge => if s.job.None? then s.(guard := VIdle) else s.(guard := VNotify, generation := s.generation + 1)
    case VNotify => NotifyAll(s.(guard := VIdle))
  }

  function StratumNext(s: State): State
  {
    match s.stratum
    case SIdle => s
    case SSlot(a) =>
      s.(job := Some(a), jobSince := if s.job.None? then s.clock else s.jobSince,
         generation := s.generation + 1, stratum := SNotify)
    case SNotify => NotifyAll(s.(stratum := SIdle))
    case SBump => s.(generation := s.generation + 1, stratum := SIdle)
  }

  /** `wait_for_job` and `wait_for_job_after`, one look under the lock. */
  function Look(s: State, seen: Option<nat>, gpus: bool): CpuPc
  {
    if s.job.Some? && seen != Some(s.generation) then CCapable(s.generation, s.job.value) else CAsleep(seen, gpus)
  }

  function CpuNext(s: State, pc: CpuPc, choice: bool, standIn: bool): CpuPc
    requires |s.capable| == 3 && |s.claims| == |s.stalled|
  {
    match pc
    case CWait(seen, gpus) => Look(s, seen, gpus)
    case CAsleep(_, _) => pc
    case CCapable(g, a) =>
      if standIn then CStalled(g, a, s.capable[Index(a)], 0, 0)
      // A GPU worker, or a thread that mines every job: mines it or sits it out.
      else if choice then CMine(g) else CWait(Some(g), false)
    case CStalled(g, a, cap, k, aside) =>
      if k < |s.stalled| then
        if s.stalled[k] != 0 then CClaims(g, a, cap, k, aside) else CStalled(g, a, cap, k + 1, aside)
      // `CpuRole::takes`, and then whether the CPU has the hash.
      else if cap > aside then CWait(Some(g), true)
      else if choice then CMine(g) else CWait(Some(g), false)
    case CClaims(g, a, cap, k, aside) =>
      CStalled(g, a, cap, k + 1, aside + if k < |s.claims| && a in s.claims[k] then 1 else 0)
    case CMine(g) =>
      // The generation moved on, or the thread's part of the space ran out.
      if s.generation != g then CWait(None, false) else if choice then CWait(Some(g), false) else pc
  }

  function Next(cfg: Config, s: State, e: Event): (s': State)
    requires Shaped(s)
    ensures AlikeShaped(s, s')
  {
    match e
    case Tick(d) => s.(clock := s.clock + d)
    case Launch(k) => if k < |s.stamp| then s.(stamp := s.stamp[k := s.clock]) else s
    case GpuSet(k, a, up) =>
      if k >= |s.gpus| || s.gpus[k].pc != GIdle || (a in s.gpus[k].held) == up || (up && a !in cfg.kernels) then s
      else s.(gpus := s.gpus[k := Gpu(if up then s.gpus[k].held + {a} else s.gpus[k].held - {a},
                                      if up then GStamp(a) else GBit(a, false))])
    case GpuStep(k) => if k < |s.gpus| then GpuNext(s, k) else s
    case GuardStep => GuardNext(cfg, s)
    case Publish(a) => if s.stratum == SIdle then s.(current := Some(a), stratum := SSlot(a)) else s
    case Clear => if s.stratum == SIdle then s.(job := None, stratum := SBump) else s
    case StratumStep => StratumNext(s)
    case CpuStep(i, choice, standIn) => if i < |s.cpus| then s.(cpus := s.cpus[i := CpuNext(s, s.cpus[i], choice, standIn)]) else s
    case Wake(i) => if i < |s.cpus| && s.cpus[i].CAsleep?
                    then s.(cpus := s.cpus[i := CWait(s.cpus[i].seen, s.cpus[i].gpus)]) else s
  }

  ghost function Run(cfg: Config, gpus: nat, cpus: nat, run: seq<Event>): (s: State)
    ensures Shaped(s)
  {
    if run == [] then Init(gpus, cpus)
    else
      Next(cfg, Run(cfg, gpus, cpus, run[..|run| - 1]), run[|run| - 1])
  }

  // ----- Counting claims -----

  /** What slot `k` adds to `gpu_capable`: its claim, unless the counter is still to be told. */
  function Told(g: Gpu, claims: set<PowAlgo>, a: PowAlgo): int
  {
    (if a in claims then 1 else 0)
    - (if g.pc == GCount(a, true) then 1 else 0)
    + (if g.pc == GCount(a, false) then 1 else 0)
  }

  function ToldOf(gpus: seq<Gpu>, claims: seq<set<PowAlgo>>, a: PowAlgo, n: nat): int
    requires n <= |gpus| && n <= |claims|
  {
    if n == 0 then 0 else ToldOf(gpus, claims, a, n - 1) + Told(gpus[n - 1], claims[n - 1], a)
  }

  /** The slots before `n` that claim `a`. */
  function Claimers(claims: seq<set<PowAlgo>>, a: PowAlgo, n: nat): nat
    requires n <= |claims|
  {
    if n == 0 then 0 else Claimers(claims, a, n - 1) + if a in claims[n - 1] then 1 else 0
  }

  /** Those of them that are set aside. */
  function Aside(stalled: seq<nat>, claims: seq<set<PowAlgo>>, a: PowAlgo, n: nat): nat
    requires n <= |stalled| && n <= |claims|
  {
    if n == 0 then 0
    else Aside(stalled, claims, a, n - 1) + if stalled[n - 1] != 0 && a in claims[n - 1] then 1 else 0
  }

  lemma {:induction false} ToldSame(gpus: seq<Gpu>, claims: seq<set<PowAlgo>>, gpus': seq<Gpu>, claims': seq<set<PowAlgo>>, a: PowAlgo, n: nat)
    requires n <= |gpus| == |gpus'| && n <= |claims| == |claims'|
    requires forall k :: 0 <= k < n ==> Told(gpus[k], claims[k], a) == Told(gpus'[k], claims'[k], a)
    ensures ToldOf(gpus, claims, a, n) == ToldOf(gpus', claims', a, n)
  {
    if n > 0 { ToldSame(gpus, claims, gpus', claims', a, n - 1); }
  }

  /** One slot moves; the sum moves with it. */
  lemma {:induction false} ToldMoves(gpus: seq<Gpu>, claims: seq<set<PowAlgo>>, k: nat, g: Gpu, c: set<PowAlgo>, a: PowAlgo, n: nat)
    requires k < n <= |gpus| == |claims|
    ensures ToldOf(gpus[k := g], claims[k := c], a, n)
         == ToldOf(gpus, claims, a, n) - Told(gpus[k], claims[k], a) + Told(g, c, a)
  {
    if n == k + 1 {
      ToldSame(gpus, claims, gpus[k := g], claims[k := c], a, k);
    } else {
      ToldMoves(gpus, claims, k, g, c, a, n - 1);
    }
  }

  lemma {:induction false} ToldIsClaimers(gpus: seq<Gpu>, claims: seq<set<PowAlgo>>, a: PowAlgo, n: nat)
    requires n <= |gpus| && n <= |claims|
    requires forall k :: 0 <= k < n ==> gpus[k].pc != GCount(a, true) && gpus[k].pc != GCount(a, false)
    ensures ToldOf(gpus, claims, a, n) == Claimers(claims, a, n)
  {
    if n > 0 { ToldIsClaimers(gpus, claims, a, n - 1); }
  }

  lemma {:induction false} AsideFewer(st: seq<nat>, cl: seq<set<PowAlgo>>, st': seq<nat>, cl': seq<set<PowAlgo>>, a: PowAlgo, n: nat)
    requires n <= |st| && n <= |cl| && n <= |st'| && n <= |cl'|
    requires forall k :: 0 <= k < n && st'[k] != 0 && a in cl'[k] ==> st[k] != 0 && a in cl[k]
    ensures Aside(st', cl', a, n) <= Aside(st, cl, a, n)
  {
    if n > 0 { AsideFewer(st, cl, st', cl', a, n - 1); }
  }

  /** Some claimer counts, exactly when the claimers outnumber those set aside. */
  lemma {:induction false} SomeoneCounts(st: seq<nat>, cl: seq<set<PowAlgo>>, a: PowAlgo, n: nat)
    requires n <= |st| && n <= |cl|
    ensures Aside(st, cl, a, n) <= Claimers(cl, a, n)
    ensures Claimers(cl, a, n) > Aside(st, cl, a, n) <==> exists k :: 0 <= k < n && a in cl[k] && st[k] == 0
  {
    if n > 0 {
      SomeoneCounts(st, cl, a, n - 1);
    }
  }

  // ----- Claims: what every step keeps -----

  predicate ClaimsOk(kernels: set<PowAlgo>, g: Gpu, claims: set<PowAlgo>)
  {
    && g.held <= kernels
    && match g.pc
       case GStamp(a) => a in g.held && claims == g.held - {a}
       case GBit(a, up) => a in kernels && (a in g.held) == up && claims == if up then g.held - {a} else g.held + {a}
       case GCount(a, up) => a in kernels && (a in g.held) == up && claims == g.held
       case GCheck(a) => a in kernels && claims == g.held
       case _ => claims == g.held
  }

  ghost predicate Books(cfg: Config, s: State)
    requires Shaped(s)
  {
    && (forall k :: 0 <= k < |s.gpus| ==> ClaimsOk(cfg.kernels, s.gpus[k], s.claims[k]))
    && (forall a :: s.capable[Index(a)] == ToldOf(s.gpus, s.claims, a, |s.gpus|))
  }

  /** One slot moves, and the counter by what it tells. */
  lemma SlotKeepsBooks(cfg: Config, s: State, s': State, k: nat)
    requires AlikeShaped(s, s') && Books(cfg, s) && k < |s.gpus|
    requires s'.gpus == s.gpus[k := s'.gpus[k]] && s'.claims == s.claims[k := s'.claims[k]]
    requires ClaimsOk(cfg.kernels, s'.gpus[k], s'.claims[k])
    requires forall a :: s'.capable[Index(a)] - s.capable[Index(a)]
                      == Told(s'.gpus[k], s'.claims[k], a) - Told(s.gpus[k], s.claims[k], a)
    ensures Books(cfg, s')
  {
    forall a ensures s'.capable[Index(a)] == ToldOf(s'.gpus, s'.claims, a, |s.gpus|) {
      ToldMoves(s.gpus, s.claims, k, s'.gpus[k], s'.claims[k], a, |s.gpus|);
    }
  }

  lemma GpuKeepsBooks(cfg: Config, s: State, k: nat)
    requires Shaped(s) && Books(cfg, s) && k < |s.gpus|
    ensures Books(cfg, GpuNext(s, k))
  {
    assert ClaimsOk(cfg.kernels, s.gpus[k], s.claims[k]);
    var s' := GpuNext(s, k);
    assert s'.gpus == s.gpus[k := s'.gpus[k]] && s'.claims == s.claims[k := s'.claims[k]];
    SlotKeepsBooks(cfg, s, s', k);
  }

  lemma SetKeepsBooks(cfg: Config, s: State, k: nat, a: PowAlgo, up: bool)
    requires Shaped(s) && Books(cfg, s)
    ensures Books(cfg, Next(cfg, s, GpuSet(k, a, up)))
  {
    var s' := Next(cfg, s, GpuSet(k, a, up));
    if s' != s {
      assert ClaimsOk(cfg.kernels, s.gpus[k], s.claims[k]);
      SlotKeepsBooks(cfg, s, s', k);
    }
  }

  lemma KeepsBooks(cfg: Config, s: State, e: Event)
    requires Shaped(s) && Books(cfg, s)
    ensures Books(cfg, Next(cfg, s, e))
  {
    match e
    case GpuStep(k) => if k < |s.gpus| { GpuKeepsBooks(cfg, s, k); }
    case GpuSet(k, a, up) => SetKeepsBooks(cfg, s, k, a, up);
    case _ =>
  }

  // ----- The job slot -----

  /** The slot never holds a PoW that is not the current one, except while `publish_job` is between the two. */
  predicate SlotOk(s: State)
  {
    && (s.job.Some? && !s.stratum.SSlot? ==> s.current == s.job)
    && (s.stratum.SBump? ==> s.job.None?)
    && (s.stratum.SSlot? ==> s.current == Some(s.stratum.a))
  }

  lemma KeepsSlot(cfg: Config, s: State, e: Event)
    requires Shaped(s) && SlotOk(s)
    ensures SlotOk(Next(cfg, s, e))
  {
    match e
    case Tick(_) =>
    case Launch(_) =>
    case GpuSet(_, _, _) =>
    case GpuStep(_) =>
    case GuardStep =>
    case Publish(_) =>
    case Clear =>
    case StratumStep =>
    case CpuStep(_, _, _) =>
    case Wake(_) =>
  }

  // ----- The guard -----

  function ScanOf(g: GuardPc): Option<Scan>
  {
    match g
    case VAlgo(c) => Some(c)
    case VHasJob(c) => Some(c)
    case VSince(c) => Some(c)
    case VClaims(c) => Some(c)
    case VStamp(c, _) => Some(c)
    case VClaimedAt(c, _) => Some(c)
    case VStore(c, _, _) => Some(c)
    case _ => None
  }

  /** The guard sets aside only claims on the PoW it read first, and one the GPUs have a kernel for. */
  predicate GuardOk(cfg: Config, s: State)
    requires Shaped(s)
  {
    && (ScanOf(s.guard).Some? ==> ScanOf(s.guard).value.slot <= |s.gpus|)
    && match s.guard
       case VStamp(c, claims) => claims <= cfg.kernels && c.slot < |s.gpus|
       case VClaimedAt(c, _) =>
         c.slot < |s.gpus| && c.algo.Some? && c.algo.value in cfg.kernels && s.stalled[c.slot] == 0
       case VStore(c, mark, _) =>
         && c.slot < |s.gpus| && ((mark != 0) <==> (s.stalled[c.slot] == 0))
         && (mark != 0 ==> c.algo.Some? && c.algo.value in cfg.kernels)
       case _ => true
  }

  lemma KeepsGuard(cfg: Config, s: State, e: Event)
    requires Shaped(s) && Books(cfg, s) && GuardOk(cfg, s)
    ensures GuardOk(cfg, Next(cfg, s, e))
  {
    if s.guard.VClaims? && s.guard.s.slot < |s.gpus| {
      assert ClaimsOk(cfg.kernels, s.gpus[s.guard.s.slot], s.claims[s.guard.s.slot]);
    }
  }

  // ----- What is still to be announced -----

  predicate GpuPending(pc: GpuPc, a: PowAlgo)
  {
    pc.GNudge? || ((pc.GCount? || pc.GCheck?) && pc.a == a)
  }

  predicate GuardPending(g: GuardPc, a: PowAlgo)
  {
    || g.VNudge?
    || (g.VCheck? && g.a == a)
    || (ScanOf(g).Some? && ScanOf(g).value.changed && ScanOf(g).value.algo == Some(a))
  }

  /** An update on `a` is half done: whoever makes it has yet to bump the generation. */
  ghost predicate Pending(s: State, a: PowAlgo)
  {
    || s.stratum.SSlot?
    || GuardPending(s.guard, a)
    || exists k :: 0 <= k < |s.gpus| && GpuPending(s.gpus[k].pc, a)
  }

  /** A waiter is about to be woken. */
  ghost predicate NotifyPending(s: State)
  {
    s.stratum.SNotify? || s.guard.VNotify? || exists k :: 0 <= k < |s.gpus| && s.gpus[k].pc.GNotify?
  }

  // ----- The stand-ins -----

  predicate AwakeOk(s: State, pc: CpuPc, notify: bool)
  {
    pc.CAsleep? ==> s.job.None? || pc.seen == Some(s.generation) || notify
  }

  ghost predicate Awake(s: State)
  {
    forall i :: 0 <= i < |s.cpus| ==> AwakeOk(s, s.cpus[i], NotifyPending(s))
  }

  lemma NotifiedAwake(s: State)
    ensures Awake(NotifyAll(s))
  {
    assert forall i :: 0 <= i < |s.cpus| ==> !NotifyAll(s).cpus[i].CAsleep?;
  }

  /** A step that wakes nobody leaves a notify to come, or nothing to be woken for. */
  ghost predicate WakesLater(s: State, s': State)
  {
    || NotifyPending(s')
    || s'.job.None?
    || (s'.job == s.job && s'.generation == s.generation && !NotifyPending(s))
  }

  lemma LaterAwake(s: State, s': State)
    requires Awake(s) && s'.cpus == s.cpus && WakesLater(s, s')
    ensures Awake(s')
  {
    forall i | 0 <= i < |s'.cpus| ensures AwakeOk(s', s'.cpus[i], NotifyPending(s')) {
      assert AwakeOk(s, s.cpus[i], NotifyPending(s));
    }
  }

  lemma GpuAwake(s: State, k: nat)
    requires Shaped(s) && Awake(s) && k < |s.gpus|
    ensures Awake(GpuNext(s, k))
  {
    var s' := GpuNext(s, k);
    if s.gpus[k].pc.GNotify? {
      NotifiedAwake(SetGpu(s, k, GIdle));
    } else {
      assert s'.gpus[k].pc.GNotify? || (s'.generation == s.generation && s'.job == s.job);
      assert forall j :: 0 <= j < |s.gpus| && s.gpus[j].pc.GNotify? ==> s'.gpus[j].pc.GNotify?;
      LaterAwake(s, s');
    }
  }

  lemma GuardAwake(cfg: Config, s: State)
    requires Shaped(s) && Awake(s)
    ensures Awake(GuardNext(cfg, s))
  {
    if s.guard.VNotify? {
      NotifiedAwake(s.(guard := VIdle));
    } else {
      var s' := GuardNext(cfg, s);
      assert s'.gpus == s.gpus && s'.stratum == s.stratum && s'.job == s.job;
      assert s'.guard.VNotify? || s'.generation == s.generation;
      LaterAwake(s, s');
    }
  }

  lemma StratumAwake(s: State)
    requires SlotOk(s) && Awake(s)
    ensures Awake(StratumNext(s))
  {
    if s.stratum.SNotify? { NotifiedAwake(s.(stratum := SIdle)); } else { LaterAwake(s, StratumNext(s)); }
  }

  lemma KeepsAwake(cfg: Config, s: State, e: Event)
    requires Shaped(s) && SlotOk(s) && Awake(s)
    ensures Awake(Next(cfg, s, e))
  {
    var s' := Next(cfg, s, e);
    match e
    case GpuStep(k) => if k < |s.gpus| { GpuAwake(s, k); }
    case GuardStep => GuardAwake(cfg, s);
    case StratumStep => StratumAwake(s);
    case CpuStep(_, _, _) =>
      assert NotifyPending(s') == NotifyPending(s);
    case Wake(_) =>
      assert NotifyPending(s') == NotifyPending(s);
    case _ =>
      assert forall j :: 0 <= j < |s.gpus| && s.gpus[j].pc.GNotify? ==> s'.gpus[j].pc.GNotify?;
      LaterAwake(s, s');
  }

  /**
   What a stand-in that looks at `gpus_mine`, or that went back to wait because
   the GPUs had the job, can still rely on while its generation is the current one.
   */
  ghost predicate CpuOk(cfg: Config, s: State, pc: CpuPc)
    requires Shaped(s)
  {
    match pc
    case CCapable(g, a) => g <= s.generation && (g == s.generation && s.job.Some? ==> s.job == Some(a))
    case CStalled(g, a, cap, k, aside) => ReaderOk(cfg, s, g, a, cap, k, aside)
    case CClaims(g, a, cap, k, aside) => ReaderOk(cfg, s, g, a, cap, k, aside) && k < |s.gpus|
    case CWait(Some(g), true) => WaiterOk(cfg, s, g)
    case CAsleep(Some(g), true) => WaiterOk(cfg, s, g)
    case _ => true
  }

  ghost predicate ReaderOk(cfg: Config, s: State, g: nat, a: PowAlgo, cap: int, k: nat, aside: nat)
    requires Shaped(s)
  {
    && k <= |s.gpus| && g <= s.generation
    && (g == s.generation && s.job.Some? ==> s.job == Some(a))
    && (a !in cfg.kernels ==> cap == 0)
    && (a in cfg.kernels && g == s.generation && s.job.Some? && !Pending(s, a)
        ==> cap == s.capable[Index(a)] && aside >= Aside(s.stalled, s.claims, a, k))
  }

  ghost predicate WaiterOk(cfg: Config, s: State, g: nat)
    requires Shaped(s)
  {
    && g <= s.generation
    && (g == s.generation && s.job.Some? ==>
        var a := s.job.value;
        && a in cfg.kernels
        && (!Pending(s, a) ==> s.capable[Index(a)] > Aside(s.stalled, s.claims, a, |s.gpus|)))
  }

  /**
   What every step of the other threads does, seen from a stand-in: it bumps the
   generation; or it takes the job away; or it leaves the job, and either has its
   own bump still to come or did not make the GPUs count for less.
   */
  ghost predicate Gentle(cfg: Config, s: State, s': State)
    requires AlikeShaped(s, s')
  {
    || s'.generation > s.generation
    || (s'.generation == s.generation && s'.job.None?)
    || (s'.generation == s.generation && s'.job == s.job
        && (s.job.value in cfg.kernels ==>
            || Pending(s', s.job.value)
            || (!Pending(s, s.job.value) && CountsAlike(s, s', s.job.value))))
  }

  ghost predicate CountsAlike(s: State, s': State, a: PowAlgo)
    requires AlikeShaped(s, s')
  {
    && s'.capable[Index(a)] == s.capable[Index(a)]
    && forall k :: 0 <= k < |s.gpus| && s'.stalled[k] != 0 && a in s'.claims[k] ==> s.stalled[k] != 0 && a in s.claims[k]
  }

  lemma GentleKeeps(cfg: Config, s: State, s': State, pc: CpuPc)
    requires AlikeShaped(s, s') && Gentle(cfg, s, s') && CpuOk(cfg, s, pc)
    ensures CpuOk(cfg, s', pc)
  {
    if s'.generation == s.generation && s'.job == s.job && s.job.Some? && s.job.value in cfg.kernels
       && !Pending(s', s.job.value) {
      var a := s.job.value;
      AsideFewer(s.stalled, s.claims, s'.stalled, s'.claims, a, |s.gpus|);
      if pc.CStalled? || pc.CClaims? {
        AsideFewer(s.stalled, s.claims, s'.stalled, s'.claims, a, pc.slot);
      }
    }
  }

  predicate AtMostOneKernel(cfg: Config)
  {
    forall a, b :: a in cfg.kernels && b in cfg.kernels ==> a == b
  }

  lemma GpuIsGentle(cfg: Config, s: State, k: nat)
    requires Shaped(s) && SlotOk(s) && Books(cfg, s) && AtMostOneKernel(cfg) && k < |s.gpus|
    ensures Gentle(cfg, s, GpuNext(s, k))
  {
    var s' := GpuNext(s, k);
    assert ClaimsOk(cfg.kernels, s.gpus[k], s.claims[k]);
    assert forall j :: 0 <= j < |s.gpus| && j != k ==> s'.gpus[j] == s.gpus[j];
    if s'.generation == s.generation && s'.job.Some? && s.job.value in cfg.kernels {
      var a := s.job.value;
      if !Pending(s', a) {
        assert !GpuPending(s'.gpus[k].pc, a);
        assert !GpuPending(s.gpus[k].pc, a);
        forall j | 0 <= j < |s.gpus| ensures !GpuPending(s.gpus[j].pc, a) {
          assert j != k ==> !GpuPending(s'.gpus[j].pc, a);
        }
      }
    }
  }

  lemma GuardIsGentle(cfg: Config, s: State)
    requires Shaped(s) && SlotOk(s) && GuardOk(cfg, s) && AtMostOneKernel(cfg)
    ensures Gentle(cfg, s, GuardNext(cfg, s))
  {
    match s.guard
    case VIdle =>
    case VAlgo(_) =>
    case VHasJob(_) =>
    case VSince(_) =>
    case VClaims(_) =>
    case VStamp(_, _) =>
    case VClaimedAt(_, _) =>
    case VStore(_, _, _) =>
    case VCheck(_) =>
    case VNudge =>
    case VNotify =>
  }

  lemma OthersAreGentle(cfg: Config, s: State, e: Event)
    requires Shaped(s) && SlotOk(s) && Books(cfg, s) && GuardOk(cfg, s) && AtMostOneKernel(cfg)
    requires !e.CpuStep? && !e.Wake?
    ensures Gentle(cfg, s, Next(cfg, s, e))
  {
    var s' := Next(cfg, s, e);
    match e
    case GpuStep(k) => if k < |s.gpus| { GpuIsGentle(cfg, s, k); }
    case GpuSet(k, a, up) =>
      if s' != s {
        assert ClaimsOk(cfg.kernels, s.gpus[k], s.claims[k]);
        assert forall j, x :: 0 <= j < |s.gpus| ==> GpuPending(s'.gpus[j].pc, x) == GpuPending(s.gpus[j].pc, x);
      }
    case GuardStep => GuardIsGentle(cfg, s);
    case _ =>
  }

  lemma CpuStepOk(cfg: Config, s: State, pc: CpuPc, choice: bool, standIn: bool)
    requires Shaped(s) && Books(cfg, s) && CpuOk(cfg, s, pc)
    ensures CpuOk(cfg, s, CpuNext(s, pc, choice, standIn))
  {
    if pc.CCapable? && pc.a !in cfg.kernels {
      NoKernelNoClaim(cfg, s, pc.a, |s.gpus|);
    }
  }

  lemma {:induction false} NoKernelNoClaim(cfg: Config, s: State, a: PowAlgo, n: nat)
    requires Shaped(s) && Books(cfg, s) && a !in cfg.kernels && n <= |s.gpus|
    ensures ToldOf(s.gpus, s.claims, a, n) == 0
  {
    if n > 0 {
      NoKernelNoClaim(cfg, s, a, n - 1);
      assert ClaimsOk(cfg.kernels, s.gpus[n - 1], s.claims[n - 1]);
    }
  }

  ghost predicate StandInsOk(cfg: Config, s: State)
    requires Shaped(s)
  {
    forall i :: 0 <= i < |s.cpus| ==> CpuOk(cfg, s, s.cpus[i])
  }

  lemma KeepsStandIns(cfg: Config, s: State, e: Event)
    requires Shaped(s) && SlotOk(s) && Books(cfg, s) && GuardOk(cfg, s) && AtMostOneKernel(cfg) && StandInsOk(cfg, s)
    ensures StandInsOk(cfg, Next(cfg, s, e))
  {
    var s' := Next(cfg, s, e);
    forall i | 0 <= i < |s'.cpus| ensures CpuOk(cfg, s', s'.cpus[i]) {
      assert CpuOk(cfg, s, s.cpus[i]);
      if e.CpuStep? {
        CpuStepOk(cfg, s, s.cpus[i], e.choice, e.standIn);
        SameWorld(cfg, s, s', s'.cpus[i]);
      } else if e.Wake? {
        SameWorld(cfg, s, s', s'.cpus[i]);
      } else {
        OthersAreGentle(cfg, s, e);
        GentleKeeps(cfg, s, s', s.cpus[i]);
        OnlyWoken(cfg, s, e, i);
      }
    }
  }

  lemma OnlyWoken(cfg: Config, s: State, e: Event, i: nat)
    requires Shaped(s) && !e.CpuStep? && !e.Wake? && i < |s.cpus|
    ensures var pc' := Next(cfg, s, e).cpus[i];
      pc' == s.cpus[i] || (s.cpus[i].CAsleep? && pc' == CWait(s.cpus[i].seen, s.cpus[i].gpus))
  {
  }

  /** Nothing a stand-in relies on is in another stand-in's steps. */
  lemma SameWorld(cfg: Config, s: State, s': State, pc: CpuPc)
    requires Shaped(s) && Shaped(s') && s' == s.(cpus := s'.cpus) && CpuOk(cfg, s, pc)
    ensures CpuOk(cfg, s', pc)
  {
    assert forall a :: Pending(s', a) == Pending(s, a);
  }

  // ----- Stall marks -----

  /** Slot `k` was set aside and not restored since. */
  predicate Open(log: seq<Mark>, k: nat)
  {
    log != [] && (var m := log[|log| - 1]; if m.slot == k then m.Stalled? else Open(log[..|log| - 1], k))
  }

  /** Set aside only when not, restored or dropped only when set aside. */
  ghost predicate Alternates(log: seq<Mark>)
  {
    forall j :: 0 <= j < |log| ==> (log[j].Stalled? <==> !Open(log[..j], log[j].slot))
  }

  ghost predicate MarksOk(s: State)
    requires Shaped(s)
  {
    Alternates(s.marks) && forall k :: 0 <= k < |s.gpus| ==> (s.stalled[k] != 0 <==> Open(s.marks, k))
  }

  /** Only the guard marks, and only when it stores. */
  lemma GuardAlone(cfg: Config, s: State, e: Event)
    requires Shaped(s) && !(e.GuardStep? && s.guard.VStore?)
    ensures var s' := Next(cfg, s, e); s'.marks == s.marks && s'.stalled == s.stalled
  {
    match e
    case Tick(_) =>
    case Launch(_) =>
    case GpuSet(_, _, _) =>
    case GpuStep(_) =>
    case GuardStep =>
    case Publish(_) =>
    case Clear =>
    case StratumStep =>
    case CpuStep(_, _, _) =>
    case Wake(_) =>
  }

  lemma AlternatesSnoc(log: seq<Mark>, m: Mark)
    requires Alternates(log) && (m.Stalled? <==> !Open(log, m.slot))
    ensures Alternates(log + [m])
  {
    var more := log + [m];
    forall j | 0 <= j < |more| ensures more[j].Stalled? <==> !Open(more[..j], more[j].slot) {
      if j < |log| { assert more[..j] == log[..j]; } else { assert more[..j] == log; }
    }
  }

  lemma OpenSnoc(log: seq<Mark>, m: Mark, k: nat)
    ensures Open(log + [m], k) <==> if m.slot == k then m.Stalled? else Open(log, k)
  {
    assert (log + [m])[..|log|] == log;
  }

  lemma StoreKeepsMarks(cfg: Config, s: State)
    requires Shaped(s) && GuardOk(cfg, s) && MarksOk(s) && s.guard.VStore?
    ensures MarksOk(GuardNext(cfg, s))
  {
    var s' := GuardNext(cfg, s);
    var m := s'.marks[|s.marks|];
    AlternatesSnoc(s.marks, m);
    forall k | 0 <= k < |s.gpus| ensures s'.stalled[k] != 0 <==> Open(s'.marks, k) {
      OpenSnoc(s.marks, m, k);
    }
  }

  lemma KeepsMarks(cfg: Config, s: State, e: Event)
    requires Shaped(s) && GuardOk(cfg, s) && MarksOk(s)
    ensures MarksOk(Next(cfg, s, e))
  {
    if e.GuardStep? && s.guard.VStore? { StoreKeepsMarks(cfg, s); } else { GuardAlone(cfg, s, e); }
  }

  /** How many marks of slot `k` set it aside, and how many took it back. */
  function Sum(log: seq<Mark>, k: nat, aside: bool): nat
  {
    if log == [] then 0
    else
      var m := log[|log| - 1];
      Sum(log[..|log| - 1], k, aside) + if m.slot == k && m.Stalled? == aside then 1 else 0
  }

  lemma {:induction false} OneForOne(log: seq<Mark>, k: nat)
    requires Alternates(log)
    ensures Sum(log, k, true) == Sum(log, k, false) + if Open(log, k) then 1 else 0
  {
    if log != [] {
      var was := log[..|log| - 1];
      assert forall j :: 0 <= j < |was| ==> was[..j] == log[..j];
      OneForOne(was, k);
      assert log[..|log| - 1] == was;
    }
  }

  // ----- The times a mark goes by -----

  /** No stamp is ahead of the clock. */
  predicate StampsOk(s: State)
    requires Shaped(s)
  {
    s.jobSince <= s.clock && forall k :: 0 <= k < |s.gpus| ==> s.stamp[k] <= s.clock && s.claimedAt[k] <= s.clock
  }

  /** The stamps were no later when the check began. */
  predicate SampleOld(s: State, c: Scan)
    requires Shaped(s)
  {
    && |c.stamps| == |c.claimedAts| == |s.gpus| && c.now <= s.clock && c.jobSince <= s.jobSince
    && forall k :: 0 <= k < |s.gpus| ==> c.stamps[k] <= s.stamp[k] && c.claimedAts[k] <= s.claimedAt[k]
  }

  /** What the guard has read since is no older than that. */
  predicate ReadSince(cfg: Config, g: GuardPc, n: nat)
  {
    match g
    case VClaims(c) => c.since >= c.jobSince
    case VStamp(c, _) => c.since >= c.jobSince
    case VClaimedAt(c, stamp) => c.since >= c.jobSince && c.slot < n && c.slot < |c.stamps| && stamp >= c.stamps[c.slot]
    case VStore(c, mark, _) =>
      && c.since >= c.jobSince && c.slot < n && c.slot < |c.stamps| && c.slot < |c.claimedAts|
      && (mark != 0 ==> IdleFor(cfg, c.stamps[c.slot], c.claimedAts[c.slot], c.jobSince, c.now))
    case _ => true
  }

  /** The stamps only grow, and what the guard read is at least what it was when the check began. */
  predicate TimesOk(cfg: Config, s: State)
    requires Shaped(s)
  {
    && StampsOk(s)
    && (ScanOf(s.guard).Some? ==> SampleOld(s, ScanOf(s.guard).value))
    && ReadSince(cfg, s.guard, |s.gpus|)
  }

  predicate IdleFor(cfg: Config, stamp: nat, claimedAt: nat, jobSince: nat, now: nat)
  {
    stamp + cfg.limit < now && claimedAt + cfg.limit < now && jobSince + cfg.limit < now
  }

  /** Steps of the others leave the guard where it is and no stamp older. */
  lemma TimesGrow(cfg: Config, s: State, e: Event)
    requires Shaped(s) && TimesOk(cfg, s) && !e.GuardStep?
    ensures var s' := Next(cfg, s, e);
      && s'.guard == s.guard && s.clock <= s'.clock && s.jobSince <= s'.jobSince <= s'.clock
      && forall k :: 0 <= k < |s.gpus| ==>
           s.stamp[k] <= s'.stamp[k] <= s'.clock && s.claimedAt[k] <= s'.claimedAt[k] <= s'.clock
  {
    match e
    case Tick(_) =>
    case Launch(_) =>
    case GpuSet(_, _, _) =>
    case GpuStep(_) =>
    case GuardStep =>
    case Publish(_) =>
    case Clear =>
    case StratumStep =>
    case CpuStep(_, _, _) =>
    case Wake(_) =>
  }

  lemma KeepsTimes(cfg: Config, s: State, e: Event)
    requires Shaped(s) && GuardOk(cfg, s) && TimesOk(cfg, s)
    ensures TimesOk(cfg, Next(cfg, s, e))
  {
    if e.GuardStep? {
      GuardKeepsTimes(cfg, s);
    } else {
      TimesGrow(cfg, s, e);
    }
  }

  lemma GuardKeepsTimes(cfg: Config, s: State)
    requires Shaped(s) && GuardOk(cfg, s) && TimesOk(cfg, s)
    ensures TimesOk(cfg, GuardNext(cfg, s))
  {
    GuardKeepsSample(cfg, s);
    GuardReads(cfg, s);
  }

  lemma GuardKeepsSample(cfg: Config, s: State)
    requires Shaped(s) && StampsOk(s) && (ScanOf(s.guard).Some? ==> SampleOld(s, ScanOf(s.guard).value))
    ensures var s' := GuardNext(cfg, s);
      StampsOk(s') && (ScanOf(s'.guard).Some? ==> SampleOld(s', ScanOf(s'.guard).value))
  {
    ScanStays(cfg, s);
    GuardOnlyMarks(cfg, s);
  }

  lemma GuardOnlyMarks(cfg: Config, s: State)
    requires Shaped(s)
    ensures var s' := GuardNext(cfg, s);
      s'.clock == s.clock && s'.jobSince == s.jobSince && s'.stamp == s.stamp && s'.claimedAt == s.claimedAt
  {
    match s.guard
    case VIdle =>
    case VAlgo(_) =>
    case VHasJob(_) =>
    case VSince(_) =>
    case VClaims(_) =>
    case VStamp(_, _) =>
    case VClaimedAt(_, _) =>
    case VStore(_, _, _) =>
    case VCheck(_) =>
    case VNudge =>
    case VNotify =>
  }

  lemma GuardReads(cfg: Config, s: State)
    requires Shaped(s) && GuardOk(cfg, s) && ReadSince(cfg, s.guard, |s.gpus|)
    requires ScanOf(s.guard).Some? ==> SampleOld(s, ScanOf(s.guard).value)
    ensures ReadSince(cfg, GuardNext(cfg, s).guard, |s.gpus|)
  {
    match s.guard
    case VIdle =>
    case VAlgo(_) =>
    case VHasJob(_) =>
    case VSince(_) =>
    case VClaims(_) =>
    case VStamp(_, _) =>
    case VClaimedAt(_, _) =>
    case VStore(_, _, _) =>
    case VCheck(_) =>
    case VNudge =>
    case VNotify =>
  }

  // ----- Every run -----

  ghost predicate Inv(cfg: Config, s: State)
    requires Shaped(s)
  {
    SlotOk(s) && Books(cfg, s) && GuardOk(cfg, s) && Awake(s) && MarksOk(s) && TimesOk(cfg, s)
  }

  lemma {:induction false} NoneTold(gpus: nat, a: PowAlgo, n: nat)
    requires n <= gpus
    ensures ToldOf(seq(gpus, _ => Gpu({}, GIdle)), seq(gpus, _ => {}), a, n) == 0
  {
    if n > 0 { NoneTold(gpus, a, n - 1); }
  }

  lemma InitOk(cfg: Config, gpus: nat, cpus: nat)
    ensures Inv(cfg, Init(gpus, cpus)) && StandInsOk(cfg, Init(gpus, cpus))
  {
    forall a ensures ToldOf(Init(gpus, cpus).gpus, Init(gpus, cpus).claims, a, gpus) == 0 { NoneTold(gpus, a, gpus); }
  }

  lemma {:induction false} EveryRun(cfg: Config, gpus: nat, cpus: nat, run: seq<Event>)
    ensures Inv(cfg, Run(cfg, gpus, cpus, run))
    ensures AtMostOneKernel(cfg) ==> StandInsOk(cfg, Run(cfg, gpus, cpus, run))
  {
    if run == [] {
      InitOk(cfg, gpus, cpus);
    } else {
      EveryRun(cfg, gpus, cpus, run[..|run| - 1]);
      StepKeeps(cfg, Run(cfg, gpus, cpus, run[..|run| - 1]), run[|run| - 1]);
    }
  }

  lemma StepKeeps(cfg: Config, s: State, e: Event)
    requires Shaped(s) && Inv(cfg, s)
    ensures Inv(cfg, Next(cfg, s, e))
    ensures AtMostOneKernel(cfg) && StandInsOk(cfg, s) ==> StandInsOk(cfg, Next(cfg, s, e))
  {
    KeepsSlot(cfg, s, e);
    KeepsBooks(cfg, s, e);
    KeepsGuard(cfg, s, e);
    KeepsAwake(cfg, s, e);
    KeepsMarks(cfg, s, e);
    KeepsTimes(cfg, s, e);
    if AtMostOneKernel(cfg) && StandInsOk(cfg, s) { KeepsStandIns(cfg, s, e); }
  }

  /** Some card that counts holds `a`. */
  ghost predicate SomeGpuMines(s: State, a: PowAlgo)
    requires Shaped(s)
  {
    exists k :: 0 <= k < |s.gpus| && a in s.claims[k] && s.stalled[k] == 0
  }

  /** `gpus_mine`, read at one instant. */
  predicate GpusMine(s: State, a: PowAlgo)
    requires Shaped(s)
  {
    s.capable[Index(a)] > Aside(s.stalled, s.claims, a, |s.gpus|)
  }

  ghost predicate HalfToldAbout(s: State, a: PowAlgo)
  {
    exists k :: 0 <= k < |s.gpus| && s.gpus[k].pc.GCount? && s.gpus[k].pc.a == a
  }

  /**
   The counters: `gpu_capable` never goes below nothing, and outside a half-told
   update it is the number of claimers, so `gpus_mine` says whether one counts.
   */
  lemma ClaimAccounting(cfg: Config, gpus: nat, cpus: nat, run: seq<Event>, a: PowAlgo)
    ensures var s := Run(cfg, gpus, cpus, run);
      && s.capable[Index(a)] >= 0
      && (!HalfToldAbout(s, a) ==>
          s.capable[Index(a)] == Claimers(s.claims, a, |s.gpus|) && (GpusMine(s, a) <==> SomeGpuMines(s, a)))
  {
    var s := Run(cfg, gpus, cpus, run);
    EveryRun(cfg, gpus, cpus, run);
    ToldNotNegative(cfg, s, a, |s.gpus|);
    if !HalfToldAbout(s, a) {
      ToldIsClaimers(s.gpus, s.claims, a, |s.gpus|);
      SomeoneCounts(s.stalled, s.claims, a, |s.gpus|);
    }
  }

  lemma {:induction false} ToldNotNegative(cfg: Config, s: State, a: PowAlgo, n: nat)
    requires Shaped(s) && Books(cfg, s) && n <= |s.gpus|
    ensures ToldOf(s.gpus, s.claims, a, n) >= 0
  {
    if n > 0 {
      ToldNotNegative(cfg, s, a, n - 1);
      assert ClaimsOk(cfg.kernels, s.gpus[n - 1], s.claims[n - 1]);
    }
  }

  /** A thread on the condvar has sat out exactly the job that is there, unless its notify is on the way. */
  lemma NoWaiterSleepsThrough(cfg: Config, gpus: nat, cpus: nat, run: seq<Event>, i: nat)
    requires i < |Run(cfg, gpus, cpus, run).cpus|
    ensures var s := Run(cfg, gpus, cpus, run);
      s.cpus[i].CAsleep? && s.job.Some? && s.cpus[i].seen != Some(s.generation) ==> NotifyPending(s)
  {
    EveryRun(cfg, gpus, cpus, run);
    var s := Run(cfg, gpus, cpus, run);
    assert AwakeOk(s, s.cpus[i], NotifyPending(s));
  }

  /** A stand-in sleeps through the current job because the GPUs had it; nobody mines it and nobody is about to say so. */
  ghost predicate Stale(s: State, i: nat)
    requires Shaped(s)
  {
    && i < |s.cpus| && s.cpus[i] == CAsleep(Some(s.generation), true) && s.job.Some?
    && !SomeGpuMines(s, s.job.value) && !Pending(s, s.job.value)
  }

  ghost predicate NeverStale(cfg: Config)
  {
    forall gpus: nat, cpus: nat, run: seq<Event>, i: nat :: !Stale(Run(cfg, gpus, cpus, run), i)
  }

  /** No stale hand-over in any run, if the GPUs have a kernel for one PoW at most. */
  lemma OneKernelNeverStale(cfg: Config, gpus: nat, cpus: nat, run: seq<Event>, i: nat)
    requires AtMostOneKernel(cfg)
    ensures !Stale(Run(cfg, gpus, cpus, run), i)
  {
    var s := Run(cfg, gpus, cpus, run);
    EveryRun(cfg, gpus, cpus, run);
    if Stale(s, i) {
      var a := s.job.value;
      assert CpuOk(cfg, s, s.cpus[i]);
      forall k | 0 <= k < |s.gpus| ensures !(s.gpus[k].pc.GCount? && s.gpus[k].pc.a == a) {
        assert !GpuPending(s.gpus[k].pc, a);
      }
      ClaimAccounting(cfg, gpus, cpus, run, a);
      assert false;
    }
  }

  /** Every mark comes of one before it: set aside and taken back in turn, slot by slot. */
  lemma StallAccounting(cfg: Config, gpus: nat, cpus: nat, run: seq<Event>, k: nat)
    requires k < |Run(cfg, gpus, cpus, run).gpus|
    ensures var s := Run(cfg, gpus, cpus, run);
      && Alternates(s.marks)
      && Sum(s.marks, k, true) == Sum(s.marks, k, false) + if s.stalled[k] != 0 then 1 else 0
  {
    EveryRun(cfg, gpus, cpus, run);
    OneForOne(Run(cfg, gpus, cpus, run).marks, k);
  }

  /** At some point of the run the time was `now`, and all three times of slot `k` were older than the limit. */
  ghost predicate WasIdle(cfg: Config, gpus: nat, cpus: nat, run: seq<Event>, k: nat, now: nat)
  {
    exists p :: 0 <= p <= |run| &&
      var t := Run(cfg, gpus, cpus, run[..p]);
      t.clock == now && k < |t.gpus| && IdleFor(cfg, t.stamp[k], t.claimedAt[k], t.jobSince, now)
  }

  ghost predicate Sampled(cfg: Config, gpus: nat, cpus: nat, run: seq<Event>, c: Scan)
  {
    exists p :: 0 <= p <= |run| && SampleOf(Run(cfg, gpus, cpus, run[..p]), c)
  }

  lemma SampledStays(cfg: Config, gpus: nat, cpus: nat, run: seq<Event>, e: Event, c: Scan, c': Scan)
    requires Sampled(cfg, gpus, cpus, run, c)
    requires SameSample(c, c')
    ensures Sampled(cfg, gpus, cpus, run + [e], c')
  {
    var p :| 0 <= p <= |run| && SampleOf(Run(cfg, gpus, cpus, run[..p]), c);
    assert (run + [e])[..p] == run[..p];
  }

  lemma WasIdleStays(cfg: Config, gpus: nat, cpus: nat, run: seq<Event>, e: Event, k: nat, now: nat)
    requires WasIdle(cfg, gpus, cpus, run, k, now)
    ensures WasIdle(cfg, gpus, cpus, run + [e], k, now)
  {
    var p :| 0 <= p <= |run| &&
      var t := Run(cfg, gpus, cpus, run[..p]);
      t.clock == now && k < |t.gpus| && IdleFor(cfg, t.stamp[k], t.claimedAt[k], t.jobSince, now);
    assert (run + [e])[..p] == run[..p];
  }

  lemma SampledIdle(cfg: Config, gpus: nat, cpus: nat, run: seq<Event>, c: Scan)
    requires Sampled(cfg, gpus, cpus, run, c) && c.slot < |c.stamps| == |c.claimedAts|
    requires IdleFor(cfg, c.stamps[c.slot], c.claimedAts[c.slot], c.jobSince, c.now)
    ensures WasIdle(cfg, gpus, cpus, run, c.slot, c.now)
  {
  }

  predicate SameSample(c: Scan, c': Scan)
  {
    c'.now == c.now && c'.stamps == c.stamps && c'.claimedAts == c.claimedAts && c'.jobSince == c.jobSince
  }

  predicate SampleOf(s: State, c: Scan)
  {
    c.now == s.clock && c.stamps == s.stamp && c.claimedAts == s.claimedAt && c.jobSince == s.jobSince
  }

  /** The scan a guard step leads to goes by what the one before did, or starts afresh. */
  lemma ScanStays(cfg: Config, s: State)
    requires Shaped(s)
    ensures var g' := GuardNext(cfg, s).guard;
      ScanOf(g').Some? ==>
        if ScanOf(s.guard).Some? then SameSample(ScanOf(s.guard).value, ScanOf(g').value)
        else SampleOf(s, ScanOf(g').value)
  {
    match s.guard
    case VIdle =>
    case VAlgo(_) =>
    case VHasJob(_) =>
    case VSince(_) =>
    case VClaims(_) =>
    case VStamp(_, _) =>
    case VClaimedAt(_, _) =>
    case VStore(_, _, _) =>
    case VCheck(_) =>
    case VNudge =>
    case VNotify =>
  }

  lemma GuardKept(cfg: Config, s: State, e: Event)
    requires Shaped(s) && !e.GuardStep?
    ensures Next(cfg, s, e).guard == s.guard
  {
    match e
    case Tick(_) =>
    case Launch(_) =>
    case GpuSet(_, _, _) =>
    case GpuStep(_) =>
    case GuardStep =>
    case Publish(_) =>
    case Clear =>
    case StratumStep =>
    case CpuStep(_, _, _) =>
    case Wake(_) =>
  }

  /** A new mark that sets a card aside is the guard's, on its scan. */
  lemma MarksGrow(cfg: Config, s: State, e: Event)
    requires Shaped(s) && GuardOk(cfg, s) && TimesOk(cfg, s)
    ensures var s' := Next(cfg, s, e);
      || s'.marks == s.marks
      || (&& |s'.marks| == |s.marks| + 1 && s'.marks[..|s.marks|] == s.marks
          && (s'.marks[|s.marks|].Stalled? ==>
              && s.guard.VStore? && s'.marks[|s.marks|] == Stalled(s.guard.s.slot, s.guard.s.now)
              && s.guard.s.slot < |s.guard.s.stamps| == |s.guard.s.claimedAts|
              && IdleFor(cfg, s.guard.s.stamps[s.guard.s.slot], s.guard.s.claimedAts[s.guard.s.slot], s.guard.s.jobSince, s.guard.s.now)))
  {
    if !(e.GuardStep? && s.guard.VStore?) { GuardAlone(cfg, s, e); }
  }

  lemma {:induction false} ScanIsSampled(cfg: Config, gpus: nat, cpus: nat, run: seq<Event>)
    ensures var g := Run(cfg, gpus, cpus, run).guard;
      ScanOf(g).Some? ==> Sampled(cfg, gpus, cpus, run, ScanOf(g).value)
  {
    if run != [] {
      var was, e := run[..|run| - 1], run[|run| - 1];
      assert run == was + [e];
      assert run[..|was|] == was;
      var s := Run(cfg, gpus, cpus, was);
      ScanIsSampled(cfg, gpus, cpus, was);
      if e.GuardStep? { ScanStays(cfg, s); } else { GuardKept(cfg, s, e); }
      var g' := Next(cfg, s, e).guard;
      if ScanOf(g').Some? && ScanOf(s.guard).Some? {
        SampledStays(cfg, gpus, cpus, was, e, ScanOf(s.guard).value, ScanOf(g').value);
      }
    }
  }

  /** A Stalled mark comes of a moment, the check's own time, when last launch, claim and run of jobs were all too old. */
  lemma {:induction false} SetAsideOnlyIdle(cfg: Config, gpus: nat, cpus: nat, run: seq<Event>, j: nat)
    requires var marks := Run(cfg, gpus, cpus, run).marks; j < |marks| && marks[j].Stalled?
    ensures var m := Run(cfg, gpus, cpus, run).marks[j]; WasIdle(cfg, gpus, cpus, run, m.slot, m.now)
  {
    var was, e := run[..|run| - 1], run[|run| - 1];
    assert run == was + [e];
    var s := Run(cfg, gpus, cpus, was);
    var m := Next(cfg, s, e).marks[j];
    if j < |s.marks| && m == s.marks[j] {
      SetAsideOnlyIdle(cfg, gpus, cpus, was, j);
    } else {
      NewMarkIdle(cfg, gpus, cpus, was, e, j);
    }
    WasIdleStays(cfg, gpus, cpus, was, e, m.slot, m.now);
  }

  lemma NewMarkIdle(cfg: Config, gpus: nat, cpus: nat, run: seq<Event>, e: Event, j: nat)
    requires var s := Run(cfg, gpus, cpus, run);
      var marks := Next(cfg, s, e).marks;
      j < |marks| && marks[j].Stalled? && !(j < |s.marks| && marks[j] == s.marks[j])
    ensures var m := Next(cfg, Run(cfg, gpus, cpus, run), e).marks[j]; WasIdle(cfg, gpus, cpus, run, m.slot, m.now)
  {
    var s := Run(cfg, gpus, cpus, run);
    EveryRun(cfg, gpus, cpus, run);
    MarksGrow(cfg, s, e);
    assert j == |s.marks|;
    ScanIsSampled(cfg, gpus, cpus, run);
    SampledIdle(cfg, gpus, cpus, run, s.guard.s);
  }

  // ----- Two kernels -----

  lemma Then(cfg: Config, gpus: nat, cpus: nat, run: seq<Event>, e: Event)
    ensures Run(cfg, gpus, cpus, run + [e]) == Next(cfg, Run(cfg, gpus, cpus, run), e)
  {
    assert (run + [e])[..|run|] == run;
  }

  /** `s` is a state of some run of one GPU and one stand-in. */
  ghost predicate Reached(cfg: Config, s: State)
  {
    exists run :: Run(cfg, 1, 1, run) == s
  }

  lemma ReachedThen(cfg: Config, s: State, e: Event)
    requires Shaped(s) && Reached(cfg, s)
    ensures Reached(cfg, Next(cfg, s, e))
  {
    var run :| Run(cfg, 1, 1, run) == s;
    Then(cfg, 1, 1, run, e);
  }

  /** The quiet state of one card that claims `held`, the CPU waiting. */
  function Quiet(held: set<PowAlgo>, capable: seq<int>): State
  {
    State(0, None, None, 0, capable, [held], [0], [0], [0], 0, [Gpu(held, GIdle)], VIdle, SIdle, [CWait(None, false)], [])
  }

  lemma Claimed(cfg: Config, held: set<PowAlgo>, capable: seq<int>, a: PowAlgo)
    requires |capable| == 3 && a in cfg.kernels && a !in held && Reached(cfg, Quiet(held, capable))
    ensures Reached(cfg, Quiet(held + {a}, capable[Index(a) := capable[Index(a)] + 1]))
  {
    var s0, up := Quiet(held, capable), held + {a};
    ReachedThen(cfg, s0, GpuSet(0, a, true));
    var s1 := s0.(gpus := [Gpu(up, GStamp(a))]);
    GpuReached(cfg, s1, s0.(gpus := [Gpu(up, GBit(a, true))]));
    GpuReached(cfg, s0.(gpus := [Gpu(up, GBit(a, true))]), s0.(gpus := [Gpu(up, GCount(a, true))], claims := [up]));
    Counted(cfg, held, capable, a);
  }

  lemma Counted(cfg: Config, held: set<PowAlgo>, capable: seq<int>, a: PowAlgo)
    requires |capable| == 3
    requires Reached(cfg, Quiet(held, capable).(gpus := [Gpu(held + {a}, GCount(a, true))], claims := [held + {a}]))
    ensures Reached(cfg, Quiet(held + {a}, capable[Index(a) := capable[Index(a)] + 1]))
  {
    var up, more := held + {a}, capable[Index(a) := capable[Index(a)] + 1];
    var s := Quiet(held, capable).(claims := [up]);
    GpuReached(cfg, s.(gpus := [Gpu(up, GCount(a, true))]), s.(gpus := [Gpu(up, GCheck(a))], capable := more));
    GpuReached(cfg, s.(gpus := [Gpu(up, GCheck(a))], capable := more), Quiet(up, more));
  }

  lemma GpuReached(cfg: Config, s: State, s': State)
    requires Shaped(s) && |s.gpus| == 1 && Reached(cfg, s) && GpuNext(s, 0) == s'
    ensures Reached(cfg, s')
  {
    ReachedThen(cfg, s, GpuStep(0));
  }

  /** A job of PoW `a` is published, the waiting CPU not yet looking. */
  lemma Published(cfg: Config, s: State, a: PowAlgo)
    requires s.job.Some? || s.jobSince == s.clock
    requires Shaped(s) && Reached(cfg, s) && s.stratum == SIdle && s.cpus == [CWait(None, false)]
    ensures Reached(cfg, s.(job := Some(a), current := Some(a), generation := s.generation + 1))
  {
    ReachedThen(cfg, s, Publish(a));
    var s1 := s.(current := Some(a), stratum := SSlot(a));
    ReachedThen(cfg, s1, StratumStep);
    var s2 := s.(job := Some(a), current := Some(a), generation := s.generation + 1, stratum := SNotify);
    assert Next(cfg, s1, StratumStep) == s2;
    ReachedThen(cfg, s2, StratumStep);
    assert Next(cfg, s2, StratumStep) == s2.(stratum := SIdle);
  }

  lemma GuardReached(cfg: Config, s: State, g: GuardPc)
    requires Shaped(s) && Reached(cfg, s) && GuardNext(cfg, s) == s.(guard := g)
    ensures Reached(cfg, s.(guard := g))
  {
    ReachedThen(cfg, s, GuardStep);
  }

  /** A card that holds `a` and `b` and finished nothing for longer than the limit; the guard is about to mark it. */
  lemma Marking(cfg: Config, s: State, a: PowAlgo, b: PowAlgo) returns (g: GuardPc)
    requires Shaped(s) && Reached(cfg, s) && s.claims == [{a, b}]
    requires s.job == s.current == Some(a) && s.guard.VIdle? && s.clock == cfg.limit + 1
    requires s.stamp == s.claimedAt == s.stalled == [0] && s.jobSince == 0
    ensures g.VStore? && g.mark != 0 && g.s.slot == 0 && g.s.algo == Some(a) && Reached(cfg, s.(guard := g))
  {
    var c := Scan(None, cfg.limit + 1, false, 0, 0, false, [0], [0], 0);
    GuardReached(cfg, s, VAlgo(c));
    GuardReached(cfg, s.(guard := VAlgo(c)), VHasJob(c.(algo := Some(a))));
    var d := c.(algo := Some(a), hasJob := true);
    GuardReached(cfg, s.(guard := VHasJob(c.(algo := Some(a)))), VSince(d));
    GuardReached(cfg, s.(guard := VSince(d)), VClaims(d));
    g := MarkingSlot(cfg, s, a, b, d);
  }

  lemma MarkingSlot(cfg: Config, s: State, a: PowAlgo, b: PowAlgo, d: Scan) returns (g: GuardPc)
    requires Shaped(s) && s.claims == [{a, b}] && Reached(cfg, s.(guard := VClaims(d)))
    requires s.stamp == s.claimedAt == s.stalled == [0]
    requires d.algo == Some(a) && d.now == cfg.limit + 1 && d.hasJob && d.since == 0 && d.slot == 0
    ensures g.VStore? && g.mark != 0 && g.s.slot == 0 && g.s.algo == Some(a) && Reached(cfg, s.(guard := g))
  {
    GuardReached(cfg, s.(guard := VClaims(d)), VStamp(d, {a, b}));
    GuardReached(cfg, s.(guard := VStamp(d, {a, b})), VClaimedAt(d, 0));
    GuardReached(cfg, s.(guard := VClaimedAt(d, 0)), VStore(d, cfg.limit + 1, false));
    g := VStore(d, cfg.limit + 1, false);
  }

  /** The stand-in looks, finds the card counting, and goes to sleep on generation 2. */
  lemma SatOut(cfg: Config, s: State, b: PowAlgo)
    requires Shaped(s) && Reached(cfg, s) && s.cpus == [CWait(None, false)] && |s.gpus| == 1
    requires s.stalled == [0] && s.capable[Index(b)] == 1 && s.job == Some(b)
    ensures Reached(cfg, s.(cpus := [CAsleep(Some(s.generation), true)]))
  {
    var g := s.generation;
    ReachedThen(cfg, s, CpuStep(0, false, true));
    var s1 := s.(cpus := [CCapable(g, b)]);
    assert Next(cfg, s, CpuStep(0, false, true)) == s1;
    ReachedThen(cfg, s1, CpuStep(0, false, true));
    var s2 := s.(cpus := [CStalled(g, b, 1, 0, 0)]);
    assert Next(cfg, s1, CpuStep(0, false, true)) == s2;
    ReachedThen(cfg, s2, CpuStep(0, false, true));
    var s3 := s.(cpus := [CStalled(g, b, 1, 1, 0)]);
    assert Next(cfg, s2, CpuStep(0, false, true)) == s3;
    ReachedThen(cfg, s3, CpuStep(0, false, true));
    var s4 := s.(cpus := [CWait(Some(g), true)]);
    assert Next(cfg, s3, CpuStep(0, false, true)) == s4;
    ReachedThen(cfg, s4, CpuStep(0, false, true));
    assert Next(cfg, s4, CpuStep(0, false, true)) == s.(cpus := [CAsleep(Some(g), true)]);
  }

  /** The guard marks the card, and tells only those who mine the PoW it began with. */
  lemma MarkedSilently(cfg: Config, s: State, a: PowAlgo, b: PowAlgo)
    requires Shaped(s) && Reached(cfg, s) && |s.gpus| == 1 && s.current == Some(b) && a != b
    requires s.guard.VStore? && s.guard.mark != 0 && s.guard.s.slot == 0 && s.guard.s.algo == Some(a)
    ensures Reached(cfg, s.(guard := VIdle, stalled := [s.guard.mark], marks := s.marks + [Stalled(0, s.guard.s.now)]))
  {
    ReachedThen(cfg, s, GuardStep);
    var s1 := Next(cfg, s, GuardStep);
    assert s1.stalled == [s.guard.mark];
    ReachedThen(cfg, s1, GuardStep);
    var s2 := s1.(guard := VCheck(a));
    assert Next(cfg, s1, GuardStep) == s2;
    ReachedThen(cfg, s2, GuardStep);
    assert Next(cfg, s2, GuardStep) == s1.(guard := VIdle);
  }

  lemma BothClaimed(cfg: Config, a: PowAlgo, b: PowAlgo) returns (capable: seq<int>)
    requires a in cfg.kernels && b in cfg.kernels && a != b
    ensures |capable| == 3 && capable[Index(b)] == 1 && Reached(cfg, Quiet({a, b}, capable))
  {
    assert Run(cfg, 1, 1, []) == Quiet({}, [0, 0, 0]);
    Claimed(cfg, {}, [0, 0, 0], a);
    var once := [0, 0, 0][Index(a) := 1];
    assert {} + {a} == {a};
    assert Index(a) != Index(b);
    Claimed(cfg, {a}, once, b);
    capable := once[Index(b) := 1];
    assert {a} + {b} == {a, b};
  }

  /**
   With kernels for two PoWs the hand-over can go stale: the guard reads PoW `a`,
   the pool moves to `b`, the stand-in leaves `b` to the card, and the guard sets
   the card aside for both but announces a change of `a` alone.
   */
  lemma TwoKernelsGoStale(cfg: Config, a: PowAlgo, b: PowAlgo)
    requires a in cfg.kernels && b in cfg.kernels && a != b
    ensures exists s :: Reached(cfg, s) && Shaped(s) && Stale(s, 0)
  {
    var c2 := BothClaimed(cfg, a, b);
    Published(cfg, Quiet({a, b}, c2), a);
    var idle := Quiet({a, b}, c2).(job := Some(a), current := Some(a), generation := 1);
    ReachedThen(cfg, idle, Tick(cfg.limit + 1));
    var g := Marking(cfg, idle.(clock := cfg.limit + 1), a, b);
    var s := idle.(clock := cfg.limit + 1, guard := g);
    Published(cfg, s, b);
    var t := s.(job := Some(b), current := Some(b), generation := 2);
    SatOut(cfg, t, b);
    var u := t.(cpus := [CAsleep(Some(2), true)]);
    MarkedSilently(cfg, u, a, b);
    var v := u.(guard := VIdle, stalled := [u.guard.mark], marks := u.marks + [Stalled(0, u.guard.s.now)]);
    assert Stale(v, 0);
  }

  /** The hand-over is never stale exactly when the GPUs have a kernel for one PoW at most. */
  lemma NoStaleHandover(cfg: Config)
    ensures NeverStale(cfg) <==> AtMostOneKernel(cfg)
  {
    if AtMostOneKernel(cfg) {
      forall gpus: nat, cpus: nat, run: seq<Event>, i: nat ensures !Stale(Run(cfg, gpus, cpus, run), i) {
        OneKernelNeverStale(cfg, gpus, cpus, run, i);
      }
    } else {
      var a, b :| a in cfg.kernels && b in cfg.kernels && a != b;
      TwoKernelsGoStale(cfg, a, b);
      var s :| Reached(cfg, s) && Shaped(s) && Stale(s, 0);
      var run :| Run(cfg, 1, 1, run) == s;
      assert Stale(Run(cfg, 1, 1, run), 0);
    }
  }

  /** As built: `kernel_supports` knows BC3Hash alone. */
  lemma BuiltIsNeverStale(limit: nat)
    ensures NeverStale(Config(KERNELS, limit))
  {
    NoStaleHandover(Config(KERNELS, limit));
  }
}
