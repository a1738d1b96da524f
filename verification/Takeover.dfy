/**
 Who mines a job that comes: what a waiting thread makes of it, alone and over
 whole runs, and how a card that was set aside comes back.
 */
module Takeover {
  import opened Machine
  import opened Handover

  // ----- One thread's own steps -----

  /** The thread after n of its own steps, the others standing still. */
  function Alone(s: State, pc: CpuPc, choice: bool, n: nat): CpuPc
    requires |s.capable| == 3 && |s.claims| == |s.stalled|
    decreases n
  {
    if n == 0 then pc else Alone(s, CpuNext(s, pc, choice, true), choice, n - 1)
  }

  lemma {:induction false} AloneOn(s: State, pc: CpuPc, choice: bool, m: nat, n: nat)
    requires |s.capable| == 3 && |s.claims| == |s.stalled|
    ensures Alone(s, pc, choice, m + n) == Alone(s, Alone(s, pc, choice, m), choice, n)
    decreases m
  {
    if m > 0 { AloneOn(s, CpuNext(s, pc, choice, true), choice, m - 1, n); }
  }

  function Own(i: nat, choice: bool, n: nat): (es: seq<Event>)
    decreases n
  {
    if n == 0 then [] else [CpuStep(i, choice, true)] + Own(i, choice, n - 1)
  }

  /** They are steps of the run like any others. */
  lemma {:induction false} AloneInARun(cfg: Config, gpus: nat, cpus: nat, run: seq<Event>, i: nat, choice: bool, n: nat)
    requires i < |Run(cfg, gpus, cpus, run).cpus|
    ensures Run(cfg, gpus, cpus, run + Own(i, choice, n))
         == At(Run(cfg, gpus, cpus, run), i, Alone(Run(cfg, gpus, cpus, run), Run(cfg, gpus, cpus, run).cpus[i], choice, n))
    decreases n
  {
    var s := Run(cfg, gpus, cpus, run);
    if n == 0 {
      assert run + Own(i, choice, n) == run;
      Unmoved(s, i);
    } else {
      var e := CpuStep(i, choice, true);
      Then(cfg, gpus, cpus, run, e);
      AloneInARun(cfg, gpus, cpus, run + [e], i, choice, n - 1);
      OneFirst(run, e, Own(i, choice, n - 1));
      OneStepFirst(cfg, s, i, choice, n);
    }
  }

  lemma OneStepFirst(cfg: Config, s: State, i: nat, choice: bool, n: nat)
    requires Shaped(s) && i < |s.cpus| && n >= 1
    ensures var s' := Next(cfg, s, CpuStep(i, choice, true));
      At(s', i, Alone(s', s'.cpus[i], choice, n - 1)) == At(s, i, Alone(s, s.cpus[i], choice, n))
  {
    var pc := CpuNext(s, s.cpus[i], choice, true);
    Moved(s, i, pc, Alone(s, pc, choice, n - 1));
    OthersDoNotMatter(s, At(s, i, pc), pc, choice, n - 1);
  }

  /** Thread i at `pc`, all else as it is. */
  function At(s: State, i: nat, pc: CpuPc): State
    requires i < |s.cpus|
  {
    s.(cpus := s.cpus[i := pc])
  }

  lemma Unmoved(s: State, i: nat)
    requires i < |s.cpus|
    ensures At(s, i, s.cpus[i]) == s
  {
    assert s.cpus[i := s.cpus[i]] == s.cpus;
  }

  lemma Moved(s: State, i: nat, pc: CpuPc, pc': CpuPc)
    requires i < |s.cpus|
    ensures At(At(s, i, pc), i, pc') == At(s, i, pc') && At(s, i, pc).cpus[i] == pc
  {
    assert s.cpus[i := pc][i := pc'] == s.cpus[i := pc'];
  }

  lemma OneFirst(run: seq<Event>, e: Event, es: seq<Event>)
    ensures (run + [e]) + es == run + ([e] + es)
  {
  }

  lemma {:induction false} OthersDoNotMatter(s: State, s': State, pc: CpuPc, choice: bool, n: nat)
    requires |s.capable| == 3 && |s.claims| == |s.stalled| && s' == s.(cpus := s'.cpus)
    ensures Alone(s', pc, choice, n) == Alone(s, pc, choice, n)
    decreases n
  {
    if n > 0 { OthersDoNotMatter(s, s', CpuNext(s, pc, choice, true), choice, n - 1); }
  }

  // ----- Asking whether the GPUs mine -----

  /** Slot by slot: the claims that do not count are counted out. */
  lemma {:induction false} Asks(s: State, g: nat, a: PowAlgo, cap: int, k: nat, aside: nat, choice: bool) returns (n: nat, all: nat)
    requires |s.capable| == 3 && |s.claims| == |s.stalled| && k <= |s.stalled|
    ensures Alone(s, CStalled(g, a, cap, k, aside), choice, n) == CStalled(g, a, cap, |s.stalled|, all)
    ensures all == aside + Aside(s.stalled, s.claims, a, |s.stalled|) - Aside(s.stalled, s.claims, a, k)
    decreases |s.stalled| - k
  {
    if k == |s.stalled| {
      n, all := 0, aside;
    } else {
      var pc := CStalled(g, a, cap, k, aside);
      var more := if s.stalled[k] != 0 && a in s.claims[k] then 1 else 0;
      n, all := Asks(s, g, a, cap, k + 1, aside + more, choice);
      var next := CStalled(g, a, cap, k + 1, aside + more);
      if s.stalled[k] != 0 {
        TwoSteps(s, pc, choice);
        AloneOn(s, pc, choice, 2, n);
        n := 2 + n;
      } else {
        assert CpuNext(s, pc, choice, true) == next;
        n := 1 + n;
      }
    }
  }

  lemma TwoSteps(s: State, pc: CpuPc, choice: bool)
    requires |s.capable| == 3 && |s.claims| == |s.stalled|
    ensures Alone(s, pc, choice, 2) == CpuNext(s, CpuNext(s, pc, choice, true), choice, true)
  {
    assert Alone(s, CpuNext(s, pc, choice, true), choice, 1) == CpuNext(s, CpuNext(s, pc, choice, true), choice, true);
  }

  /** What a stand-in that has looked at a job does about it: mine it unless a GPU does, if the CPU has the hash. */
  function Verdict(g: nat, gpuMines: bool, choice: bool): CpuPc
  {
    if gpuMines then CWait(Some(g), true) else if choice then CMine(g) else CWait(Some(g), false)
  }

  /**
   After any run: a stand-in that asks about PoW `a`, no update on it half told,
   is brought by its own steps to mine the job - if and only if no card that
   counts claims `a`, and the CPU has the hash.
   */
  lemma StandInDecides(cfg: Config, gpus: nat, cpus: nat, run: seq<Event>, i: nat, g: nat, a: PowAlgo, choice: bool) returns (n: nat)
    requires var s := Run(cfg, gpus, cpus, run);
      i < |s.cpus| && s.cpus[i] == CCapable(g, a) && !HalfToldAbout(s, a)
    ensures var s, s' := Run(cfg, gpus, cpus, run), Run(cfg, gpus, cpus, run + Own(i, choice, n));
      s' == s.(cpus := s.cpus[i := Verdict(g, SomeGpuMines(s, a), choice)])
  {
    var s := Run(cfg, gpus, cpus, run);
    ClaimAccounting(cfg, gpus, cpus, run, a);
    n := DecidesAlone(s, g, a, choice);
    AloneInARun(cfg, gpus, cpus, run, i, choice, n);
  }

  lemma DecidesAlone(s: State, g: nat, a: PowAlgo, choice: bool) returns (n: nat)
    requires Shaped(s)
    ensures Alone(s, CCapable(g, a), choice, n) == Verdict(g, GpusMine(s, a), choice)
  {
    var m := AskedOut(s, g, a, s.capable[Index(a)], 0, 0, choice);
    n := m + 1;
    assert Alone(s, CCapable(g, a), choice, n) == Alone(s, CStalled(g, a, s.capable[Index(a)], 0, 0), choice, m);
  }

  /** Asked to the end, from any slot on. */
  lemma AskedOut(s: State, g: nat, a: PowAlgo, cap: int, k: nat, aside: nat, choice: bool) returns (n: nat)
    requires Shaped(s) && k <= |s.gpus|
    ensures var all := aside + Aside(s.stalled, s.claims, a, |s.gpus|) - Aside(s.stalled, s.claims, a, k);
      Alone(s, CStalled(g, a, cap, k, aside), choice, n) == Verdict(g, cap > all, choice)
  {
    var m, all := Asks(s, g, a, cap, k, aside, choice);
    var last := CStalled(g, a, cap, |s.stalled|, all);
    AloneOn(s, CStalled(g, a, cap, k, aside), choice, m, 1);
    assert Alone(s, last, choice, 1) == Alone(s, CpuNext(s, last, choice, true), choice, 0);
    n := m + 1;
  }

  /** A thread that has seen the present job and sat it out sleeps, and its own steps do not wake it. */
  lemma {:induction false} SitsStill(s: State, gpus: bool, choice: bool, n: nat)
    requires |s.capable| == 3 && |s.claims| == |s.stalled| && n >= 1
    ensures Alone(s, CWait(Some(s.generation), gpus), choice, n) == CAsleep(Some(s.generation), gpus)
    ensures Alone(s, CAsleep(Some(s.generation), gpus), choice, n) == CAsleep(Some(s.generation), gpus)
    decreases n
  {
    if n > 1 { SitsStill(s, gpus, choice, n - 1); }
  }

  // ----- Why a thread waits -----

  /** The step a thread took when it went back to wait on generation `g`; `gpus`: because the GPUs mine. */
  predicate WentBack(s: State, pc: CpuPc, e: Event, g: nat, gpus: bool)
    requires |s.claims| == |s.stalled|
  {
    && e.CpuStep?
    && match pc
       case CStalled(gen, a, cap, k, aside) =>
         // A stand-in that has asked: a card counts, or the CPU lacks the hash.
         gen == g && k >= |s.stalled| && (if gpus then cap > aside else cap <= aside && !e.choice)
       // A thread that does not ask, and sits the job out.
       case CCapable(gen, _) => gen == g && !gpus && !e.standIn && !e.choice
       // Its part of the space has run out.
       case CMine(gen) => gen == g && !gpus && e.choice && s.generation == g
       case _ => false
  }

  predicate Waits(pc: CpuPc, g: nat, gpus: bool)
  {
    pc == CWait(Some(g), gpus) || pc == CAsleep(Some(g), gpus)
  }

  ghost predicate WentBackIn(cfg: Config, gpus: nat, cpus: nat, run: seq<Event>, i: nat, g: nat, why: bool)
  {
    exists p :: 0 <= p < |run| && run[p].CpuStep? && run[p].thread == i &&
      var s := Run(cfg, gpus, cpus, run[..p]);
      i < |s.cpus| && WentBack(s, s.cpus[i], run[p], g, why)
  }

  /**
   Over every run: a thread that waits, having seen generation `g`, waits because
   the GPUs had that job when it asked, or - a stand-in - because the CPU lacked
   the hash, or because it had run out of its part, or, not a stand-in, sat it out.
   */
  lemma {:induction false} WaitsForAReason(cfg: Config, gpus: nat, cpus: nat, run: seq<Event>, i: nat, g: nat, why: bool)
    requires var s := Run(cfg, gpus, cpus, run); i < |s.cpus| && Waits(s.cpus[i], g, why)
    ensures WentBackIn(cfg, gpus, cpus, run, i, g, why)
  {
    if run != [] {
      var was, e := run[..|run| - 1], run[|run| - 1];
      var s := Run(cfg, gpus, cpus, was);
      if Waits(s.cpus[i], g, why) {
        WaitsForAReason(cfg, gpus, cpus, was, i, g, why);
        var p :| 0 <= p < |was| && was[p].CpuStep? && was[p].thread == i &&
          var t := Run(cfg, gpus, cpus, was[..p]);
          i < |t.cpus| && WentBack(t, t.cpus[i], was[p], g, why);
        assert run[..p] == was[..p] && run[p] == was[p];
      } else {
        BeginsToWait(cfg, s, e, i, g, why);
        assert run[..|was|] == was && run[|was|] == e;
      }
    }
  }

  lemma BeginsToWait(cfg: Config, s: State, e: Event, i: nat, g: nat, why: bool)
    requires Shaped(s) && i < |s.cpus| && !Waits(s.cpus[i], g, why) && Waits(Next(cfg, s, e).cpus[i], g, why)
    ensures e.CpuStep? && e.thread == i && WentBack(s, s.cpus[i], e, g, why)
  {
    if !e.CpuStep? && !e.Wake? { OnlyWoken(cfg, s, e, i); }
  }

  // ----- Nobody's job is taken -----

  /** Once it looks, it finds the present job, asks, and mines it. */
  lemma FromTheWait(s: State, seen: Option<nat>, gpus: bool) returns (n: nat)
    requires Shaped(s) && s.job.Some? && !GpusMine(s, s.job.value) && seen != Some(s.generation)
    ensures Alone(s, CWait(seen, gpus), true, n) == CMine(s.generation)
  {
    var m := DecidesAlone(s, s.generation, s.job.value, true);
    n := m + 1;
    assert Alone(s, CWait(seen, gpus), true, n) == Alone(s, CCapable(s.generation, s.job.value), true, m);
  }

  /** Done with an older job, it waits, and looks again. */
  lemma FromAnOldJob(s: State, g: nat, gpuMines: bool) returns (n: nat)
    requires Shaped(s) && s.job.Some? && !GpusMine(s, s.job.value) && g != s.generation
    ensures Alone(s, Verdict(g, gpuMines, true), true, n) == CMine(s.generation)
  {
    if gpuMines {
      n := FromTheWait(s, Some(g), true);
    } else {
      var m := FromTheWait(s, None, false);
      n := m + 1;
      assert Alone(s, CMine(g), true, n) == Alone(s, CWait(None, false), true, m);
    }
  }

  /** One that is asking asks to the end, and mines the present job, or looks for it. */
  lemma FromTheAsking(s: State, g: nat, a: PowAlgo, cap: int, k: nat, aside: nat) returns (n: nat)
    requires Shaped(s) && s.job.Some? && !GpusMine(s, s.job.value) && k <= |s.gpus|
    requires g == s.generation ==>
      cap <= aside + Aside(s.stalled, s.claims, a, |s.gpus|) - Aside(s.stalled, s.claims, a, k)
    ensures Alone(s, CStalled(g, a, cap, k, aside), true, n) == CMine(s.generation)
  {
    var pc := CStalled(g, a, cap, k, aside);
    var gpuMines := cap > aside + Aside(s.stalled, s.claims, a, |s.gpus|) - Aside(s.stalled, s.claims, a, k);
    n := AskedOut(s, g, a, cap, k, aside, true);
    if g != s.generation {
      var m := FromAnOldJob(s, g, gpuMines);
      AloneOn(s, pc, true, n, m);
      n := n + m;
    }
  }

  lemma {:induction false} AsideGrows(st: seq<nat>, cl: seq<set<PowAlgo>>, a: PowAlgo, k: nat, n: nat)
    requires k <= n <= |st| && n <= |cl|
    ensures Aside(st, cl, a, k) <= Aside(st, cl, a, n)
  {
    if k < n { AsideGrows(st, cl, a, k, n - 1); }
  }

  /** What a thread that is asking has read so far does not hide that no card counts. */
  lemma ReadEnough(cfg: Config, s: State, g: nat, a: PowAlgo, cap: int, k: nat, aside: nat)
    requires Shaped(s) && ReaderOk(cfg, s, g, a, cap, k, aside) && g == s.generation
    requires s.job.Some? && !Pending(s, s.job.value) && !GpusMine(s, s.job.value)
    ensures cap <= aside + Aside(s.stalled, s.claims, a, |s.gpus|) - Aside(s.stalled, s.claims, a, k)
  {
    AsideGrows(s.stalled, s.claims, a, k, |s.gpus|);
  }

  lemma FromTheQuestion(s: State, g: nat, a: PowAlgo) returns (n: nat)
    requires Shaped(s) && s.job.Some? && !GpusMine(s, s.job.value) && (g == s.generation ==> s.job == Some(a))
    ensures Alone(s, CCapable(g, a), true, n) == CMine(s.generation)
  {
    n := DecidesAlone(s, g, a, true);
    if g != s.generation {
      var m := FromAnOldJob(s, g, GpusMine(s, a));
      AloneOn(s, CCapable(g, a), true, n, m);
      n := n + m;
    }
  }

  /** From wherever the thread is. */
  lemma BroughtThere(cfg: Config, s: State, pc: CpuPc) returns (n: nat)
    requires Shaped(s) && CpuOk(cfg, s, pc) && s.job.Some? && !Pending(s, s.job.value) && !GpusMine(s, s.job.value)
    requires !pc.CAsleep? && !Waits(pc, s.generation, false)
    ensures Alone(s, pc, true, n) == CMine(s.generation)
  {
    match pc
    case CWait(seen, gpus) => n := FromTheWait(s, seen, gpus);
    case CAsleep(_, _) => assert false;
    case CCapable(g, a) => n := FromTheQuestion(s, g, a);
    case CStalled(g, a, cap, k, aside) =>
      if g == s.generation { ReadEnough(cfg, s, g, a, cap, k, aside); }
      n := FromTheAsking(s, g, a, cap, k, aside);
    case CClaims(g, a, cap, k, aside) =>
      n := FromTheClaims(cfg, s, g, a, cap, k, aside);
    case CMine(g) =>
      n := 0;
      if g != s.generation { n := FromAnOldJob(s, g, false); }
  }

  lemma FromTheClaims(cfg: Config, s: State, g: nat, a: PowAlgo, cap: int, k: nat, aside: nat) returns (n: nat)
    requires Shaped(s) && ReaderOk(cfg, s, g, a, cap, k, aside) && k < |s.gpus|
    requires s.job.Some? && !Pending(s, s.job.value) && !GpusMine(s, s.job.value)
    ensures Alone(s, CClaims(g, a, cap, k, aside), true, n) == CMine(s.generation)
  {
    var more := aside + if a in s.claims[k] then 1 else 0;
    if g == s.generation {
      ReadEnough(cfg, s, g, a, cap, k, aside);
      assert Aside(s.stalled, s.claims, a, k + 1) <= Aside(s.stalled, s.claims, a, k) + more - aside;
    }
    var m := FromTheAsking(s, g, a, cap, k + 1, more);
    n := m + 1;
    assert Alone(s, CClaims(g, a, cap, k, aside), true, n) == Alone(s, CStalled(g, a, cap, k + 1, more), true, m);
  }

  /** It mines the present job, or is to be woken for it, or waits for a reason of its own (see WaitsForAReason). */
  ghost predicate Attends(s: State, pc: CpuPc)
  {
    pc == CMine(s.generation) || Waits(pc, s.generation, false) || (pc.CAsleep? && NotifyPending(s))
  }

  /**
   The hand-over works: after any run, if there is a job that no card which
   counts claims, and nobody is about to say so, then every thread either
   attends to it, or its own steps as a stand-in bring it to mine that job.
   */
  lemma SomeoneTakesOver(cfg: Config, gpus: nat, cpus: nat, run: seq<Event>, i: nat) returns (n: nat)
    requires AtMostOneKernel(cfg)
    requires var s := Run(cfg, gpus, cpus, run);
      i < |s.cpus| && s.job.Some? && !SomeGpuMines(s, s.job.value) && !Pending(s, s.job.value)
    ensures var s := Run(cfg, gpus, cpus, run);
      Attends(s, s.cpus[i]) || Run(cfg, gpus, cpus, run + Own(i, true, n)) == At(s, i, CMine(s.generation))
  {
    var s := Run(cfg, gpus, cpus, run);
    n := 0;
    if !Attends(s, s.cpus[i]) {
      EveryRun(cfg, gpus, cpus, run);
      NotMined(cfg, gpus, cpus, run, s.job.value);
      NotAsleep(cfg, gpus, cpus, run, i);
      assert CpuOk(cfg, s, s.cpus[i]);
      n := BroughtThere(cfg, s, s.cpus[i]);
      AloneInARun(cfg, gpus, cpus, run, i, true, n);
    }
  }

  lemma NotMined(cfg: Config, gpus: nat, cpus: nat, run: seq<Event>, a: PowAlgo)
    requires var s := Run(cfg, gpus, cpus, run); !SomeGpuMines(s, a) && !Pending(s, a)
    ensures !GpusMine(Run(cfg, gpus, cpus, run), a)
  {
    var s := Run(cfg, gpus, cpus, run);
    forall k | 0 <= k < |s.gpus| ensures !(s.gpus[k].pc.GCount? && s.gpus[k].pc.a == a) {
      assert !GpuPending(s.gpus[k].pc, a);
    }
    ClaimAccounting(cfg, gpus, cpus, run, a);
  }

  lemma NotAsleep(cfg: Config, gpus: nat, cpus: nat, run: seq<Event>, i: nat)
    requires AtMostOneKernel(cfg)
    requires var s := Run(cfg, gpus, cpus, run);
      && i < |s.cpus| && s.job.Some? && !SomeGpuMines(s, s.job.value) && !Pending(s, s.job.value)
      && !Attends(s, s.cpus[i])
    ensures !Run(cfg, gpus, cpus, run).cpus[i].CAsleep?
  {
    var s := Run(cfg, gpus, cpus, run);
    NoWaiterSleepsThrough(cfg, gpus, cpus, run, i);
    OneKernelNeverStale(cfg, gpus, cpus, run, i);
  }
}
