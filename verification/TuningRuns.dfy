/**
 Whole tunings: the tuner, the worker that drives it and the card it switches,
 over every run of launches that come back and switches that are answered.
 */
module TuningRuns {
  import opened Machine
  import opened Layout
  import opened Tuner

  /** The card, at window `at`, and the switches it has answered. */
  datatype Loop = Loop(tune: TuneView, at: nat, answers: seq<(nat, bool)>)

  datatype Event =
    | Launch(window: nat, hashes: nat, busy: nat, compiled: bool)
    | Answer(ok: bool)

  /** While a switch is pending launches come only from the card's present window; only a pending switch is answered. */
  predicate Legal(l: Loop, e: Event)
  {
    match e
    case Launch(window, _, _, _) => l.tune.switchTo.Some? ==> window == l.at
    case Answer(_) => l.tune.switchTo.Some?
  }

  /** A switch that fails leaves the card at the start window, which the worker loads again. */
  function Next(l: Loop, e: Event): Loop
    requires Legal(l, e)
  {
    match e
    case Launch(window, hashes, busy, compiled) => l.(tune := TuneLaunched(l.tune, window, hashes, busy, compiled))
    case Answer(ok) =>
      var w := l.tune.switchTo.value;
      Loop(TuneSwitched(l.tune.(switchTo := None), w, ok), if ok then w else START_WINDOW, l.answers + [(w, ok)])
  }

  function Begin(fitting: Option<nat>, recalled: Option<Choice>): Loop
  {
    Loop(Begun(TuneView(START_WINDOW, None, false, None, None), fitting, recalled), START_WINDOW, [])
  }

  ghost predicate LegalRun(l: Loop, run: seq<Event>)
    decreases |run|
  {
    run == [] || (Legal(l, run[0]) && LegalRun(Next(l, run[0]), run[1..]))
  }

  ghost function Replay(l: Loop, run: seq<Event>): Loop
    requires LegalRun(l, run)
    decreases |run|
  {
    if run == [] then l else Replay(Next(l, run[0]), run[1..])
  }

  // ----- What every event keeps -----

  /** The windows tried fit the memory measured at the start, the next ones smaller. */
  ghost predicate TargetsOk(t: Tuning, fits: set<nat>)
  {
    && t.target > START_WINDOW && t.target in fits
    && Descending(t.fallback)
    && forall w :: w in t.fallback ==> START_WINDOW < w < t.target && w in fits
  }

  /** The switch pending, the window wanted and the window the card is at, phase by phase. */
  predicate PhaseOk(t: Tuning, v: TuneView, at: nat)
  {
    && (v.preparing <==> !t.ready)
    && (t.ready || t.phase.WarmUp? || t.phase.Recalled?)
    && match t.phase
       case WarmUp(mined) => mined < WARM_UP && v.switchTo.None? && at == v.want == START_WINDOW
       case MeasureStart(rate) => rate.busy < MEASURE && v.switchTo.None? && at == v.want == START_WINDOW
       case Settle(_, mined) =>
         && v.want == t.target && mined < SETTLE
         && if v.switchTo.None? then at == t.target else v.switchTo == Some(t.target) && at == START_WINDOW && mined == 0
       case MeasureTarget(_, rate) => rate.busy < MEASURE && v.switchTo.None? && at == v.want == t.target
       case SettleBack(_, _, mined) =>
         && v.want == START_WINDOW && mined < SETTLE
         && if v.switchTo.None? then at == START_WINDOW else v.switchTo == Some(START_WINDOW) && at == t.target && mined == 0
       case MeasureBack(_, _, rate) => rate.busy < MEASURE && v.switchTo.None? && at == v.want == START_WINDOW
       case Return(choice, _) =>
         && v.switchTo == Some(t.target) && v.want == t.target && at == START_WINDOW
         && choice.window == t.target && Earned(choice)
       case Recalled(w) =>
         && w == t.target && at == START_WINDOW
         && if t.ready then v.switchTo == Some(w) && v.want == w else v.switchTo.None? && v.want == START_WINDOW
       case Finished => false
  }

  /** A bigger window measured faster by the gain, or was remembered; the start window was not beaten. */
  predicate Earned(c: Choice)
  {
    var bar := c.startRate * (1.0 + MIN_GAIN);
    if c.window == START_WINDOW then c.triedRate <= bar
    else c.triedRate > bar || (c.startRate == 0.0 && c.triedRate == 0.0)
  }

  /** The choice is where the card is, and a bigger window only where the last switch went, and got there. */
  predicate EndOk(l: Loop)
  {
    && l.tune.switchTo.None?
    && match l.tune.outcome
       case None => l.at == l.tune.want == START_WINDOW
       case Some((choice, _)) =>
         && l.at == l.tune.want == choice.window && Earned(choice)
         && (choice.window != START_WINDOW ==> l.answers != [] && l.answers[|l.answers| - 1] == (choice.window, true))
  }

  ghost predicate LoopOk(l: Loop, fits: set<nat>)
  {
    match l.tune.tuner
    case None => EndOk(l)
    case Some(t) => TargetsOk(t, fits) && PhaseOk(t, l.tune, l.at)
  }

  /** The windows above the start that fit in `free`. */
  ghost function Fitting(free: nat): set<nat>
  {
    set w | START_WINDOW < w <= 24 && FitsIn(w, free)
  }

  lemma {:induction false} SmallerDescends(windows: seq<nat>, w: nat)
    requires Descending(windows)
    ensures Descending(Smaller(windows, w))
  {
    if windows != [] {
      var rest, tail := windows[1..], Smaller(windows[1..], w);
      forall i, j | 0 <= i < j < |rest| ensures rest[j] < rest[i] {
        assert windows[j + 1] < windows[i + 1];
      }
      SmallerDescends(rest, w);
      forall j | 0 <= j < |tail| ensures tail[j] < windows[0] {
        assert tail[j] in rest;
      }
    }
  }

  lemma TailDescends(s: seq<nat>)
    requires Descending(s) && s != []
    ensures Descending(s[1..]) && forall w :: w in s[1..] ==> w in s && w < s[0]
  {
    forall i, j | 0 <= i < j < |s[1..]| ensures s[1..][j] < s[1..][i] {
      assert s[j + 1] < s[i + 1];
    }
    forall w | w in s[1..] ensures w in s && w < s[0] {
      var i :| 0 <= i < |s[1..]| && s[1..][i] == w;
      assert s[i + 1] < s[0];
    }
  }

  lemma StillFits(w: nat, fitting: nat, free: nat)
    requires fitting in BIGGER && START_WINDOW < w <= fitting && FitsIn(fitting, free)
    ensures w in Fitting(free)
  {
    SmallerTakesLess(w, fitting);
  }

  /** What `largest_fitting` finds in `free`. */
  ghost predicate FoundIn(fitting: Option<nat>, free: nat)
  {
    fitting.Some? ==> fitting.value in BIGGER && FitsIn(fitting.value, free)
  }

  /** `fits` holds the windows above the start up to `fitting`. */
  ghost predicate UpTo(fitting: Option<nat>, fits: set<nat>)
  {
    fitting.Some? ==> fitting.value > START_WINDOW && forall w :: START_WINDOW < w <= fitting.value ==> w in fits
  }

  lemma FoundUpTo(fitting: Option<nat>, free: nat)
    requires FoundIn(fitting, free)
    ensures UpTo(fitting, Fitting(free))
  {
    if fitting.Some? {
      forall w | START_WINDOW < w <= fitting.value ensures w in Fitting(free) { StillFits(w, fitting.value, free); }
    }
  }

  /** The remembered window may be anything. */
  lemma BeginOk(fitting: Option<nat>, recalled: Option<Choice>, fits: set<nat>)
    requires UpTo(fitting, fits)
    ensures LoopOk(Begin(fitting, recalled), fits)
  {
    if fitting.Some? && recalled.None? { FreshOk(BIGGER, fitting.value, fits); }
  }

  lemma FreshOk(windows: seq<nat>, w: nat, fits: set<nat>)
    requires Descending(windows) && (forall x :: x in windows ==> x > START_WINDOW) && UpTo(Some(w), fits)
    ensures TargetsOk(Tuning(w, Smaller(windows, w), false, WarmUp(0)), fits)
  {
    SmallerDescends(windows, w);
  }

  lemma LaunchKeeps(l: Loop, e: Event, fits: set<nat>)
    requires e.Launch? && Legal(l, e) && LoopOk(l, fits)
    ensures LoopOk(Next(l, e), fits)
  {
    if l.tune.tuner.Some? {
      if Measuring(l.tune.tuner.value.phase) { MeasuringKeeps(l, e, fits); } else { ElseKeeps(l, e, fits); }
    }
  }

  lemma MeasuringKeeps(l: Loop, e: Event, fits: set<nat>)
    requires e.Launch? && Legal(l, e) && LoopOk(l, fits) && l.tune.tuner.Some?
    requires Measuring(l.tune.tuner.value.phase)
    ensures LoopOk(Next(l, e), fits)
  {
  }

  lemma ElseKeeps(l: Loop, e: Event, fits: set<nat>)
    requires e.Launch? && Legal(l, e) && LoopOk(l, fits) && l.tune.tuner.Some?
    requires !Measuring(l.tune.tuner.value.phase)
    ensures LoopOk(Next(l, e), fits)
  {
  }

  lemma AnswerKeeps(l: Loop, e: Event, fits: set<nat>)
    requires e.Answer? && Legal(l, e) && LoopOk(l, fits)
    ensures LoopOk(Next(l, e), fits)
  {
    if l.tune.tuner.Some? && l.tune.tuner.value.fallback != [] {
      TailDescends(l.tune.tuner.value.fallback);
      assert l.tune.tuner.value.fallback[0] in l.tune.tuner.value.fallback;
    }
  }

  // ----- Termination -----

  /** Launches of at least `step` that fill `left`. */
  function Fill(left: int, step: nat): nat
    requires step >= 1
    decreases if left <= 0 then 0 else left
  {
    if left <= 0 then 0 else 1 + Fill(left - step, step)
  }

  lemma {:induction false} FillLess(a: int, b: int, step: nat)
    requires step >= 1 && a <= b
    ensures Fill(a, step) <= Fill(b, step)
    decreases if b <= 0 then 0 else b
  {
    if a > 0 { FillLess(a - step, b - step, step); }
  }

  lemma FillStep(left: nat, busy: nat, step: nat)
    requires step >= 1 && left > 0
    ensures busy >= step ==> Fill(left - busy, step) < Fill(left, step)
    ensures Fill(left - busy, step) <= Fill(left, step)
  {
    FillLess(left - busy, left, step);
    if busy >= step { FillLess(left - busy, left - step, step); }
  }

  /** It is the quotient, rounded up. */
  lemma {:induction false} FillIs(left: int, step: nat)
    requires step >= 1
    ensures left <= Fill(left, step) * step
    ensures left > 0 ==> (Fill(left, step) - 1) * step < left
    decreases if left <= 0 then 0 else left
  {
    if left > 0 {
      FillIs(left - step, step);
      MulDist(Fill(left - step, step), 1, step);
      if left - step > 0 { MulDist(Fill(left - step, step) - 1, 1, step); }
    }
  }

  /** Launches still needed, each of at least `step`. */
  function LaunchesLeft(v: TuneView, step: nat): nat
    requires step >= 1
  {
    if v.tuner.None? then 0 else
    var m, s := Fill(MEASURE, step), Fill(SETTLE, step);
    match v.tuner.value.phase
    case WarmUp(mined) => Fill(WARM_UP - mined, step) + 3 * m + 2 * s
    case MeasureStart(rate) => Fill(MEASURE - rate.busy, step) + 2 * m + 2 * s
    case Settle(_, mined) => Fill(SETTLE - mined, step) + 2 * m + s
    case MeasureTarget(_, rate) => Fill(MEASURE - rate.busy, step) + m + s
    case SettleBack(_, _, mined) => Fill(SETTLE - mined, step) + m
    case MeasureBack(_, _, rate) => Fill(MEASURE - rate.busy, step)
    case Recalled(_) => if v.switchTo.None? then 1 else 0
    case _ => 0
  }

  /** Switches that may still be asked for or answered. */
  function SwitchesLeft(v: TuneView): nat
  {
    if v.tuner.None? then 0 else
    match v.tuner.value.phase
    case WarmUp(_) => 3 + |v.tuner.value.fallback|
    case MeasureStart(_) => 3 + |v.tuner.value.fallback|
    case Settle(_, _) => if v.switchTo.Some? then 3 + |v.tuner.value.fallback| else 2
    case MeasureTarget(_, _) => 2
    case SettleBack(_, _, _) => if v.switchTo.Some? then 2 else 1
    case Finished => 0
    case _ => 1
  }

  /** A launch the tuning can count on: of the window the card is at, no switch pending, the target ready, long enough. */
  predicate Counts(l: Loop, e: Event, step: nat)
  {
    && e.Launch? && l.tune.tuner.Some? && l.tune.switchTo.None?
    && e.window == l.at && (l.tune.preparing ==> e.compiled) && e.busy >= step
  }

  predicate Measuring(ph: Phase)
  {
    ph.MeasureStart? || ph.MeasureTarget? || ph.MeasureBack?
  }

  ghost predicate Advances(l: Loop, e: Event, step: nat)
    requires e.Launch? && Legal(l, e) && step >= 1
  {
    var l' := Next(l, e);
    && SwitchesLeft(l'.tune) <= SwitchesLeft(l.tune)
    && LaunchesLeft(l'.tune, step) + (if Counts(l, e, step) then 1 else 0) <= LaunchesLeft(l.tune, step)
  }

  lemma LaunchAdvances(l: Loop, e: Event, fits: set<nat>, step: nat)
    requires e.Launch? && Legal(l, e) && LoopOk(l, fits) && step >= 1
    ensures Advances(l, e, step)
  {
    if l.tune.tuner.Some? {
      if Measuring(l.tune.tuner.value.phase) {
        MeasuringAdvances(l, e, l.tune.tuner.value.phase, step);
      } else {
        ElseAdvances(l, e, l.tune.tuner.value.phase, step);
      }
    }
  }

  lemma MeasuringAdvances(l: Loop, e: Event, ph: Phase, step: nat)
    requires e.Launch? && Legal(l, e) && l.tune.tuner.Some? && ph == l.tune.tuner.value.phase && Measuring(ph)
    requires PhaseOk(l.tune.tuner.value, l.tune, l.at) && step >= 1
    ensures Advances(l, e, step)
  {
    FillStep(MEASURE - ph.rate.busy, e.busy, step);
  }

  lemma ElseAdvances(l: Loop, e: Event, ph: Phase, step: nat)
    requires e.Launch? && Legal(l, e) && l.tune.tuner.Some? && ph == l.tune.tuner.value.phase && !Measuring(ph)
    requires PhaseOk(l.tune.tuner.value, l.tune, l.at) && step >= 1
    ensures Advances(l, e, step)
  {
    match ph
    case WarmUp(mined) => FillStep(WARM_UP - mined, e.busy, step);
    case Settle(_, mined) => FillStep(SETTLE - mined, e.busy, step);
    case SettleBack(_, _, mined) => FillStep(SETTLE - mined, e.busy, step);
    case _ =>
  }

  lemma AnswerAdvances(l: Loop, e: Event, fits: set<nat>, step: nat)
    requires e.Answer? && Legal(l, e) && LoopOk(l, fits) && step >= 1
    ensures var l' := Next(l, e);
      && SwitchesLeft(l'.tune) + 1 <= SwitchesLeft(l.tune)
      && LaunchesLeft(l'.tune, step) <= LaunchesLeft(l.tune, step)
  {
  }

  /** How many launches of a run count, and how many switches it answers. */
  ghost function Counted(l: Loop, run: seq<Event>, step: nat): nat
    requires LegalRun(l, run)
    decreases |run|
  {
    if run == [] then 0 else (if Counts(l, run[0], step) then 1 else 0) + Counted(Next(l, run[0]), run[1..], step)
  }

  function Answered(run: seq<Event>): nat
  {
    if run == [] then 0 else (if run[0].Answer? then 1 else 0) + Answered(run[1..])
  }

  /** Every run keeps the invariant, and spends what the tuning has left. */
  lemma {:induction false} EveryRun(l: Loop, run: seq<Event>, fits: set<nat>, step: nat)
    requires LegalRun(l, run) && LoopOk(l, fits) && step >= 1
    ensures var l' := Replay(l, run);
      && LoopOk(l', fits)
      && Answered(run) + SwitchesLeft(l'.tune) <= SwitchesLeft(l.tune)
      && Counted(l, run, step) + LaunchesLeft(l'.tune, step) <= LaunchesLeft(l.tune, step)
    decreases |run|
  {
    if run != [] {
      var e := run[0];
      if e.Launch? {
        LaunchKeeps(l, e, fits);
        LaunchAdvances(l, e, fits, step);
      } else {
        AnswerKeeps(l, e, fits);
        AnswerAdvances(l, e, fits, step);
      }
      EveryRun(Next(l, e), run[1..], fits, step);
    }
  }

  /** A tuning that is not over waits for an answer or for a launch that counts. */
  lemma NotOverNotStuck(l: Loop, fits: set<nat>, step: nat)
    requires LoopOk(l, fits) && l.tune.tuner.Some? && step >= 1
    ensures LaunchesLeft(l.tune, step) + SwitchesLeft(l.tune) > 0
    ensures l.tune.switchTo.None? ==> LaunchesLeft(l.tune, step) > 0
  {
  }

  // ----- The windows a tuning goes to -----

  /** Every window gone to is the start window or fits; the others come in falling order, never again one that failed. */
  ghost predicate AnswersOk(answers: seq<(nat, bool)>, fits: set<nat>)
  {
    && (forall i :: 0 <= i < |answers| ==> answers[i].0 == START_WINDOW || answers[i].0 in fits)
    && (forall i, j :: 0 <= i < j < |answers| && answers[i].0 != START_WINDOW && answers[j].0 != START_WINDOW ==>
          answers[j].0 <= answers[i].0 && (!answers[i].1 ==> answers[j].0 < answers[i].0))
  }

  ghost predicate LogOk(l: Loop, fits: set<nat>)
  {
    && AnswersOk(l.answers, fits)
    && (l.tune.tuner.Some? ==>
        var target := l.tune.tuner.value.target;
        forall i :: 0 <= i < |l.answers| && l.answers[i].0 != START_WINDOW ==>
          target <= l.answers[i].0 && (!l.answers[i].1 ==> target < l.answers[i].0))
  }

  lemma LogKept(l: Loop, e: Event, fits: set<nat>)
    requires Legal(l, e) && LoopOk(l, fits) && LogOk(l, fits)
    ensures LogOk(Next(l, e), fits)
  {
    if e.Answer? && l.tune.tuner.Some? { AnswerLogged(l, e.ok, fits); }
  }

  lemma AnswerLogged(l: Loop, ok: bool, fits: set<nat>)
    requires Legal(l, Answer(ok)) && LoopOk(l, fits) && LogOk(l, fits) && l.tune.tuner.Some?
    ensures LogOk(Next(l, Answer(ok)), fits)
  {
    var t, w := l.tune.tuner.value, l.tune.switchTo.value;
    assert w == START_WINDOW || w == t.target;
    assert AnswersOk(l.answers + [(w, ok)], fits);
    if t.fallback != [] { assert t.fallback[0] in t.fallback; }
  }

  lemma {:induction false} EveryLog(l: Loop, run: seq<Event>, fits: set<nat>)
    requires LegalRun(l, run) && LoopOk(l, fits) && LogOk(l, fits)
    ensures LogOk(Replay(l, run), fits)
    ensures |Replay(l, run).answers| == |l.answers| + Answered(run)
    decreases |run|
  {
    if run != [] {
      var e := run[0];
      if e.Launch? { LaunchKeeps(l, e, fits); } else { AnswerKeeps(l, e, fits); }
      LogKept(l, e, fits);
      EveryLog(Next(l, e), run[1..], fits);
    }
  }

  /** The launches a tuning from the start needs at most, each of at least `step`. */
  function Needed(step: nat): nat
    requires step >= 1
  {
    Fill(WARM_UP, step) + 3 * Fill(MEASURE, step) + 2 * Fill(SETTLE, step)
  }

  ghost predicate Over(l: Loop)
  {
    l.tune.tuner.None?
  }

  /**
   Every tuning: at most three switches and one for each smaller window that
   fits, and no more launches that count than fill its phases; with none of
   either left it is over. Over, the card is at the window wanted, which is the
   one chosen; a bigger one is where the last switch went and succeeded.
   */
  lemma TuningEnds(fitting: Option<nat>, recalled: Option<Choice>, free: nat, run: seq<Event>, step: nat)
    requires FoundIn(fitting, free)
    requires LegalRun(Begin(fitting, recalled), run) && step >= 1
    ensures EndsWithin(fitting, recalled, Fitting(free), run, step)
  {
    FoundUpTo(fitting, free);
    TuningEndsWithin(fitting, recalled, Fitting(free), run, step);
  }

  ghost predicate EndsWithin(fitting: Option<nat>, recalled: Option<Choice>, fits: set<nat>, run: seq<Event>, step: nat)
    requires LegalRun(Begin(fitting, recalled), run) && step >= 1
  {
    var l := Replay(Begin(fitting, recalled), run);
    var spent := Counted(Begin(fitting, recalled), run, step) + Answered(run);
    var smaller := if fitting.Some? then |Smaller(BIGGER, fitting.value)| else 0;
    && |l.answers| == Answered(run) <= 3 + smaller
    && Counted(Begin(fitting, recalled), run, step) <= Needed(step)
    && (spent >= Needed(step) + 3 + smaller ==> Over(l))
    && (!Over(l) && l.tune.switchTo.None? ==> LaunchesLeft(l.tune, step) > 0)
    && (Over(l) ==> EndOk(l))
    && AnswersOk(l.answers, fits)
  }

  lemma TuningEndsWithin(fitting: Option<nat>, recalled: Option<Choice>, fits: set<nat>, run: seq<Event>, step: nat)
    requires UpTo(fitting, fits)
    requires LegalRun(Begin(fitting, recalled), run) && step >= 1
    ensures EndsWithin(fitting, recalled, fits, run, step)
  {
    var l0 := Begin(fitting, recalled);
    BeginOk(fitting, recalled, fits);
    EveryRun(l0, run, fits, step);
    EveryLog(l0, run, fits);
    var l := Replay(l0, run);
    FillPositive(step);
    if l.tune.tuner.Some? { NotOverNotStuck(l, fits, step); }
    BeginNeeds(fitting, recalled, step);
  }

  lemma BeginNeeds(fitting: Option<nat>, recalled: Option<Choice>, step: nat)
    requires step >= 1
    ensures var v := Begin(fitting, recalled).tune;
      && LaunchesLeft(v, step) <= Needed(step)
      && SwitchesLeft(v) <= 3 + if fitting.Some? then |Smaller(BIGGER, fitting.value)| else 0
  {
    FillPositive(step);
  }

  lemma FillPositive(step: nat)
    requires step >= 1
    ensures Fill(WARM_UP, step) >= 1 && Fill(MEASURE, step) >= 1 && Fill(SETTLE, step) >= 1
  {
  }

  // ----- Launches at another window -----

  /** Two runs that differ only in what launches at an unexpected window did. */
  ghost predicate AlikeButStray(l: Loop, run: seq<Event>, run': seq<Event>)
    requires LegalRun(l, run)
    decreases |run|
  {
    if run == [] then run' == []
    else
      && run' != []
      && (run[0] == run'[0] ||
          (&& run[0].Launch? && run'[0].Launch? && run'[0].window == run[0].window && run'[0].compiled == run[0].compiled
           && (l.tune.tuner.Some? ==> run[0].window != Expected(l.tune.tuner.value))))
      && AlikeButStray(Next(l, run[0]), run[1..], run'[1..])
  }

  lemma {:induction false} StrayLaunchesCountForNothing(l: Loop, run: seq<Event>, run': seq<Event>)
    requires LegalRun(l, run) && AlikeButStray(l, run, run')
    ensures LegalRun(l, run') && Replay(l, run') == Replay(l, run)
    decreases |run|
  {
    if run != [] {
      assert Legal(l, run'[0]) && Next(l, run'[0]) == Next(l, run[0]);
      StrayLaunchesCountForNothing(Next(l, run[0]), run[1..], run'[1..]);
    }
  }

  // ----- A drifting clock -----

  /** One launch of length `tau` for each of `hs`, at the card's own window. */
  function LaunchAll(l: Loop, hs: seq<nat>, tau: nat): Loop
    decreases |hs|
  {
    if hs == [] then l else LaunchAll(Next(l, Launch(l.at, hs[0], tau, true)), hs[1..], tau)
  }

  function Sum(hs: seq<nat>): nat
  {
    if hs == [] then 0 else hs[0] + Sum(hs[1..])
  }

  function WithPhase(l: Loop, ph: Phase): Loop
    requires l.tune.tuner.Some?
  {
    l.(tune := l.tune.(tuner := Some(l.tune.tuner.value.(phase := ph))))
  }

  /** At work on the phase: ready, no switch pending, the card at the window it counts. */
  predicate AtWork(l: Loop)
  {
    && l.tune.tuner.Some? && !l.tune.preparing && l.tune.switchTo.None?
    && l.at == Expected(l.tune.tuner.value)
  }

  function PhaseOf(l: Loop): Phase
    requires l.tune.tuner.Some?
  {
    l.tune.tuner.value.phase
  }

  /** All launches of a measurement but the last. */
  lemma {:induction false} Measure(l: Loop, hs: seq<nat>, tau: nat)
    requires AtWork(l) && Measuring(PhaseOf(l)) && PhaseOf(l).rate.busy + |hs| * tau < MEASURE
    ensures LaunchAll(l, hs, tau)
         == WithPhase(l, PhaseOf(l).(rate := Rate(PhaseOf(l).rate.hashes + Sum(hs), PhaseOf(l).rate.busy + |hs| * tau)))
    decreases |hs|
  {
    if hs != [] {
      MulDist(|hs| - 1, 1, tau);
      MulLe(0, |hs| - 1, tau);
      var l' := WithPhase(l, PhaseOf(l).(rate := PhaseOf(l).rate.Add(hs[0], tau)));
      assert Next(l, Launch(l.at, hs[0], tau, true)) == l';
      Measure(l', hs[1..], tau);
    }
  }

  lemma {:induction false} LaunchLast(l: Loop, hs: seq<nat>, h: nat, tau: nat)
    ensures LaunchAll(l, hs + [h], tau) == (var l' := LaunchAll(l, hs, tau); Next(l', Launch(l'.at, h, tau, true)))
    decreases |hs|
  {
    if hs != [] {
      LaunchLast(Next(l, Launch(l.at, hs[0], tau, true)), hs[1..], h, tau);
      assert (hs + [h])[1..] == hs[1..] + [h];
    }
  }

  lemma {:induction false} SumLast(hs: seq<nat>, h: nat)
    ensures Sum(hs + [h]) == Sum(hs) + h
  {
    if hs != [] {
      SumLast(hs[1..], h);
      assert (hs + [h])[1..] == hs[1..] + [h];
    }
  }

  function RateOf(hs: seq<nat>, tau: nat): real
  {
    Rate(Sum(hs), |hs| * tau).PerSecond()
  }

  /** A whole measurement ends with its last launch, on the rate of all of them. */
  lemma MeasureOut(l: Loop, hs: seq<nat>, tau: nat) returns (last: Loop)
    requires AtWork(l) && Measuring(PhaseOf(l)) && PhaseOf(l).rate == NO_RATE
    requires tau >= 1 && |hs| == Fill(MEASURE, tau)
    ensures AtWork(last) && Measuring(PhaseOf(last)) && last == WithPhase(l, PhaseOf(l).(rate := PhaseOf(last).rate))
    ensures |hs| * tau >= MEASURE > PhaseOf(last).rate.busy && hs != []
    ensures PhaseOf(last).rate.Add(hs[|hs| - 1], tau) == Rate(Sum(hs), |hs| * tau)
    ensures LaunchAll(l, hs, tau) == Next(last, Launch(l.at, hs[|hs| - 1], tau, true))
  {
    FillIs(MEASURE, tau);
    FillPositive(tau);
    var n := |hs| - 1;
    assert hs == hs[..n] + [hs[n]];
    MulDist(n, 1, tau);
    Measure(l, hs[..n], tau);
    LaunchLast(l, hs[..n], hs[n], tau);
    SumLast(hs[..n], hs[n]);
    last := LaunchAll(l, hs[..n], tau);
  }

  lemma MeasuredStart(l: Loop, hs: seq<nat>, tau: nat)
    requires AtWork(l) && PhaseOf(l) == MeasureStart(NO_RATE) && tau >= 1 && |hs| == Fill(MEASURE, tau)
    ensures LaunchAll(l, hs, tau) == SwitchFrom(WithPhase(l, Settle(RateOf(hs, tau), 0)), l.tune.tuner.value.target)
  {
    var last := MeasureOut(l, hs, tau);
  }

  lemma MeasuredTarget(l: Loop, hs: seq<nat>, tau: nat)
    requires AtWork(l) && PhaseOf(l).MeasureTarget? && PhaseOf(l).rate == NO_RATE && tau >= 1 && |hs| == Fill(MEASURE, tau)
    ensures LaunchAll(l, hs, tau)
         == SwitchFrom(WithPhase(l, SettleBack(PhaseOf(l).before, RateOf(hs, tau), 0)), START_WINDOW)
  {
    var last := MeasureOut(l, hs, tau);
  }

  lemma MeasuredBack(l: Loop, hs: seq<nat>, tau: nat)
    requires AtWork(l) && PhaseOf(l).MeasureBack? && PhaseOf(l).rate == NO_RATE && tau >= 1 && |hs| == Fill(MEASURE, tau)
    requires !Keep(PhaseOf(l).before, PhaseOf(l).tried, RateOf(hs, tau))
    ensures LaunchAll(l, hs, tau).tune.outcome
         == Some((Verdict(l.tune.tuner.value.target, PhaseOf(l).before, PhaseOf(l).tried, RateOf(hs, tau)),
                  Steady(PhaseOf(l).before, RateOf(hs, tau))))
  {
    var last := MeasureOut(l, hs, tau);
  }

  lemma MeasuredBackKept(l: Loop, hs: seq<nat>, tau: nat)
    requires AtWork(l) && PhaseOf(l).MeasureBack? && PhaseOf(l).rate == NO_RATE && tau >= 1 && |hs| == Fill(MEASURE, tau)
    requires Keep(PhaseOf(l).before, PhaseOf(l).tried, RateOf(hs, tau))
    ensures var target := l.tune.tuner.value.target;
      LaunchAll(l, hs, tau)
      == SwitchFrom(WithPhase(l, Return(Verdict(target, PhaseOf(l).before, PhaseOf(l).tried, RateOf(hs, tau)),
                                        Steady(PhaseOf(l).before, RateOf(hs, tau)))), target)
  {
    var last := MeasureOut(l, hs, tau);
  }

  /** The tuning was decided on these three rates: over at the start window, or on its way to the target for good. */
  ghost predicate JudgedOn(l: Loop, target: nat, before: real, tried: real, after: real)
  {
    var choice, remember := Verdict(target, before, tried, after), Steady(before, after);
    if Keep(before, tried, after) then
      l.tune.tuner.Some? && PhaseOf(l) == Return(choice, remember) && l.tune.switchTo == Some(target)
    else l.tune.outcome == Some((choice, remember))
  }

  function SwitchFrom(l: Loop, w: nat): Loop
  {
    l.(tune := l.tune.(want := w, switchTo := Some(w)))
  }

  predicate Settling(ph: Phase)
  {
    ph.WarmUp? || ph.Settle? || ph.SettleBack?
  }

  function Settled(ph: Phase): Phase
    requires Settling(ph)
  {
    match ph
    case WarmUp(_) => MeasureStart(NO_RATE)
    case Settle(before, _) => MeasureTarget(before, NO_RATE)
    case SettleBack(before, tried, _) => MeasureBack(before, tried, NO_RATE)
  }

  function SettledAfter(ph: Phase): nat
  {
    if ph.WarmUp? then WARM_UP else SETTLE
  }

  /** Settling takes as many launches as fill what is left of it. */
  lemma {:induction false} SettleAll(l: Loop, hs: seq<nat>, tau: nat)
    requires AtWork(l) && Settling(PhaseOf(l)) && tau >= 1 && PhaseOf(l).mined < SettledAfter(PhaseOf(l))
    requires PhaseOf(l).WarmUp? ==> l.tune.tuner.value.ready
    requires |hs| == Fill(SettledAfter(PhaseOf(l)) - PhaseOf(l).mined, tau)
    ensures LaunchAll(l, hs, tau) == WithPhase(l, Settled(PhaseOf(l)))
    decreases |hs|
  {
    var mined := PhaseOf(l).mined + tau;
    var l' := Next(l, Launch(l.at, hs[0], tau, true));
    if mined >= SettledAfter(PhaseOf(l)) {
      assert |hs| == 1 && hs[1..] == [];
      assert l' == WithPhase(l, Settled(PhaseOf(l)));
    } else {
      assert l' == WithPhase(l, PhaseOf(l).(mined := mined));
      SettleAll(l', hs[1..], tau);
    }
  }

  /** Before the bigger window's kernel is ready the launches count for nothing. */
  lemma NotReadyCountsForNothing(l: Loop, e: Event)
    requires e.Launch? && !e.compiled && Legal(l, e) && l.tune.preparing
    requires l.tune.tuner.Some? && !l.tune.tuner.value.ready && (PhaseOf(l).WarmUp? || PhaseOf(l).Recalled?)
    ensures Next(l, e) == l
  {
  }

  /** From its start a tuning warms up for as many launches as fill that, and then begins to measure. */
  lemma WarmsUp(fitting: nat, hs: seq<nat>, tau: nat)
    requires fitting != START_WINDOW && tau >= 1 && |hs| == Fill(WARM_UP, tau)
    ensures var l := LaunchAll(Begin(Some(fitting), None), hs, tau);
      AtWork(l) && PhaseOf(l) == MeasureStart(NO_RATE) && l.tune.tuner.value.target == fitting && l.at == START_WINDOW
  {
    var l := Begin(Some(fitting), None);
    FillPositive(tau);
    var l' := Next(l, Launch(l.at, hs[0], tau, true));
    assert LaunchAll(l, hs, tau) == LaunchAll(l', hs[1..], tau);
    if tau < WARM_UP {
      SettleAll(l', hs[1..], tau);
    } else {
      assert |hs| == 1 && hs[1..] == [];
    }
  }

  /** Launches still in flight when a switch is asked for change nothing. */
  lemma {:induction false} Drained(l: Loop, hs: seq<nat>, tau: nat)
    requires l.tune.tuner.Some? && !l.tune.preparing && l.at != Expected(l.tune.tuner.value)
    ensures LaunchAll(l, hs, tau) == l
  {
    if hs != [] { Drained(l, hs[1..], tau); }
  }

  /** Hashes per launch affine in the number of the launch. */
  predicate Affine(hs: seq<nat>, slope: int)
  {
    forall i :: 0 <= i < |hs| - 1 ==> hs[i + 1] == hs[i] + slope
  }

  lemma {:induction false} AffineApart(hs: seq<nat>, slope: int, p: nat, d: nat)
    requires Affine(hs, slope) && p + d < |hs|
    ensures hs[p + d] == hs[p] + d * slope
  {
    if d > 0 {
      AffineApart(hs, slope, p, d - 1);
      assert hs[(p + d - 1) + 1] == hs[p + d - 1] + slope;
      MulDist(d - 1, 1, slope);
    }
  }

  lemma {:induction false} ShiftedSum(a: seq<nat>, b: seq<nat>, shift: int)
    requires |a| == |b| && forall i :: 0 <= i < |a| ==> b[i] == a[i] + shift
    ensures Sum(b) == Sum(a) + |a| * shift
  {
    if a != [] {
      ShiftedSum(a[1..], b[1..], shift);
      MulDist(|a| - 1, 1, shift);
    }
  }

  /** Two stretches of `n` launches, `d` launches apart. */
  lemma StretchesApart(hs: seq<nat>, slope: int, p: nat, d: nat, n: nat)
    requires Affine(hs, slope) && p + d + n <= |hs|
    ensures Sum(hs[p + d..p + d + n]) == Sum(hs[p..p + n]) + n * (d * slope)
  {
    var a, b := hs[p..p + n], hs[p + d..p + d + n];
    forall i | 0 <= i < n ensures b[i] == a[i] + d * slope {
      AffineApart(hs, slope, p + i, d);
    }
    ShiftedSum(a, b, d * slope);
  }

  /** The mean of the outer two against the middle one, for sums over equal times. */
  lemma MeanOfRates(a: nat, b: nat, c: nat, n: nat, x: int, tau: nat, busy: nat)
    requires n >= 1 && tau >= 1 && 2 * b - a - c == n * x && busy == n * tau
    ensures OffTheMean(Rate(a, busy).PerSecond(), Rate(b, busy).PerSecond(), Rate(c, busy).PerSecond(), tau, x)
  {
    MulLe(1, n, tau);
    CastMul(n, tau, busy);
    CastMul(n, x, 2 * b - a - c);
    RealMean(a as real, b as real, c as real, n as real, x as real, tau as real, busy as real, 1_000_000_000.0);
  }

  lemma CastMul(n: int, x: int, y: int)
    requires y == n * x
    ensures y as real == n as real * x as real
  {
  }

  lemma RealMean(a: real, b: real, c: real, m: real, x: real, tau: real, t: real, k: real)
    requires m > 0.0 && tau > 0.0 && t == m * tau && 2.0 * b - a - c == m * x
    ensures t > 0.0 && (2.0 * (b * k / t) - a * k / t - c * k / t) * tau == x * k
  {
    Spread(a, b, c, k, t);
    Shorten(m, x, tau, k, t);
  }

  lemma Spread(a: real, b: real, c: real, k: real, t: real)
    requires t > 0.0
    ensures 2.0 * (b * k / t) - a * k / t - c * k / t == (2.0 * b - a - c) * k / t
  {
    var q := k / t;
    assert a * k / t == a * q && b * k / t == b * q && c * k / t == c * q;
    assert (2.0 * b - a - c) * k / t == (2.0 * b - a - c) * q;
  }

  lemma Shorten(m: real, x: real, tau: real, k: real, t: real)
    requires m > 0.0 && tau > 0.0 && t == m * tau
    ensures ((m * x) * k / t) * tau == x * k
  {
    var y := (m * x) * k / t;
    assert t > 0.0;
    assert y * t == (m * x) * k;
    assert (y * tau) * m == (x * k) * m;
  }

  /** Where the stretches of launches begin: first measurement, drain, settling, and so on. */
  function Cuts(n: nat, m: nat, d1: nat, d2: nat): (nat, nat, nat, nat, nat, nat)
  {
    (n, n + d1, n + d1 + m, 2 * n + d1 + m, 2 * n + d1 + m + d2, 2 * n + d1 + 2 * m + d2)
  }

  /**
   The launches of a tuning whose switches succeed, from the start of its first
   measurement: `d1` and `d2` of them in flight when a switch is asked for.
   */
  function TuneThrough(l: Loop, hs: seq<nat>, tau: nat, d1: nat, d2: nat): (r: (Loop, Loop))
    requires tau >= 1 && |hs| == 3 * Fill(MEASURE, tau) + 2 * Fill(SETTLE, tau) + d1 + d2
  {
    var (c1, c2, c3, c4, c5, c6) := Cuts(Fill(MEASURE, tau), Fill(SETTLE, tau), d1, d2);
    var l2 := LaunchAll(LaunchAll(l, hs[..c1], tau), hs[c1..c2], tau);
    if !Legal(l2, Answer(true)) then (l2, l2) else
    var l4 := LaunchAll(LaunchAll(Next(l2, Answer(true)), hs[c2..c3], tau), hs[c3..c4], tau);
    var l5 := LaunchAll(l4, hs[c4..c5], tau);
    if !Legal(l5, Answer(true)) then (l5, l5) else
    var l6 := LaunchAll(Next(l5, Answer(true)), hs[c5..c6], tau);
    (l6, LaunchAll(l6, hs[c6..], tau))
  }

  /** Up to the last measurement: the first two are over the first and the middle `n` launches. */
  lemma ThroughTwo(l: Loop, hs: seq<nat>, tau: nat, d1: nat, d2: nat)
    requires AtWork(l) && PhaseOf(l) == MeasureStart(NO_RATE) && l.tune.tuner.value.target != START_WINDOW
    requires tau >= 1 && |hs| == 3 * Fill(MEASURE, tau) + 2 * Fill(SETTLE, tau) + d1 + d2
    ensures var (c1, c2, c3, c4, c5, c6) := Cuts(Fill(MEASURE, tau), Fill(SETTLE, tau), d1, d2);
      var (l6, l7) := TuneThrough(l, hs, tau, d1, d2);
      && AtWork(l6) && PhaseOf(l6) == MeasureBack(RateOf(hs[..c1], tau), RateOf(hs[c3..c4], tau), NO_RATE)
      && l6.tune.tuner.value.target == l.tune.tuner.value.target
      && l7 == LaunchAll(l6, hs[c6..], tau)
  {
    var (c1, c2, c3, c4, c5, c6) := Cuts(Fill(MEASURE, tau), Fill(SETTLE, tau), d1, d2);
    var target := l.tune.tuner.value.target;
    MeasuredStart(l, hs[..c1], tau);
    var l1 := LaunchAll(l, hs[..c1], tau);
    Drained(l1, hs[c1..c2], tau);
    var l2 := Next(l1, Answer(true));
    assert AtWork(l2) && PhaseOf(l2) == Settle(RateOf(hs[..c1], tau), 0);
    SettleAll(l2, hs[c2..c3], tau);
    var l3 := LaunchAll(l2, hs[c2..c3], tau);
    MeasuredTarget(l3, hs[c3..c4], tau);
    var l4 := LaunchAll(l3, hs[c3..c4], tau);
    Drained(l4, hs[c4..c5], tau);
    var l5 := Next(l4, Answer(true));
    assert AtWork(l5) && PhaseOf(l5) == SettleBack(RateOf(hs[..c1], tau), RateOf(hs[c3..c4], tau), 0);
    SettleAll(l5, hs[c5..c6], tau);
  }

  /** Such a tuning is decided on the rates of its first, middle and last `n` launches, n filling a measurement. */
  lemma ThroughMeasures(l: Loop, hs: seq<nat>, tau: nat, d1: nat, d2: nat)
    requires AtWork(l) && PhaseOf(l) == MeasureStart(NO_RATE) && l.tune.tuner.value.target != START_WINDOW
    requires tau >= 1 && |hs| == 3 * Fill(MEASURE, tau) + 2 * Fill(SETTLE, tau) + d1 + d2
    ensures var (c1, c2, c3, c4, c5, c6) := Cuts(Fill(MEASURE, tau), Fill(SETTLE, tau), d1, d2);
      JudgedOn(TuneThrough(l, hs, tau, d1, d2).1, l.tune.tuner.value.target,
               RateOf(hs[..c1], tau), RateOf(hs[c3..c4], tau), RateOf(hs[c6..], tau))
  {
    var (c1, c2, c3, c4, c5, c6) := Cuts(Fill(MEASURE, tau), Fill(SETTLE, tau), d1, d2);
    ThroughTwo(l, hs, tau, d1, d2);
    var (l6, l7) := TuneThrough(l, hs, tau, d1, d2);
    if Keep(PhaseOf(l6).before, PhaseOf(l6).tried, RateOf(hs[c6..], tau)) {
      MeasuredBackKept(l6, hs[c6..], tau);
    } else {
      MeasuredBack(l6, hs[c6..], tau);
    }
  }

  /**
   A clock that drifts: launches of equal length, hashes affine in the number of
   the launch. What the target measures differs from the mean of the start window
   by the drift over the difference of the two drains, and by nothing else.
   */
  lemma DriftMeasured(hs: seq<nat>, tau: nat, slope: int, d1: nat, d2: nat)
    requires tau >= 1 && |hs| == 3 * Fill(MEASURE, tau) + 2 * Fill(SETTLE, tau) + d1 + d2 && Affine(hs, slope)
    ensures var (c1, c2, c3, c4, c5, c6) := Cuts(Fill(MEASURE, tau), Fill(SETTLE, tau), d1, d2);
      OffTheMean(RateOf(hs[..c1], tau), RateOf(hs[c3..c4], tau), RateOf(hs[c6..], tau), tau, (d1 - d2) * slope)
  {
    var n, m := Fill(MEASURE, tau), Fill(SETTLE, tau);
    FillPositive(tau);
    var (c1, c2, c3, c4, c5, c6) := Cuts(n, m, d1, d2);
    var x := SumsApart(hs, slope, n, c3, c6, d1 - d2);
    assert hs[0..n] == hs[..c1] && hs[c6..c6 + n] == hs[c6..];
    ThreeRates(hs[..c1], hs[c3..c4], hs[c6..], x, tau);
  }

  /** `tried` is off the mean of the other two by half of `x` per time `tau`. */
  predicate OffTheMean(before: real, tried: real, after: real, tau: nat, x: int)
  {
    (2.0 * tried - before - after) * tau as real == x as real * 1_000_000_000.0
  }

  lemma ThreeRates(a: seq<nat>, b: seq<nat>, c: seq<nat>, x: int, tau: nat)
    requires |a| == |b| == |c| >= 1 && tau >= 1 && 2 * Sum(b) - Sum(a) - Sum(c) == |a| * x
    ensures OffTheMean(RateOf(a, tau), RateOf(b, tau), RateOf(c, tau), tau, x)
  {
    var busy := |a| * tau;
    RateIs(a, tau, busy);
    RateIs(b, tau, busy);
    RateIs(c, tau, busy);
    MeanOfRates(Sum(a), Sum(b), Sum(c), |a|, x, tau, busy);
  }

  lemma RateIs(hs: seq<nat>, tau: nat, busy: nat)
    requires busy == |hs| * tau
    ensures RateOf(hs, tau) == Rate(Sum(hs), busy).PerSecond()
  {
  }

  lemma SumsApart(hs: seq<nat>, slope: int, n: nat, p: nat, q: nat, d: int) returns (x: int)
    requires Affine(hs, slope) && p <= q && q + n <= |hs| && p - (q - p) == d
    ensures x == d * slope
    ensures 2 * Sum(hs[p..p + n]) - Sum(hs[0..n]) - Sum(hs[q..q + n]) == n * x
  {
    StretchesApart(hs, slope, 0, p, n);
    StretchesApart(hs, slope, p, q - p, n);
    Apart(n, p, q - p, d, slope);
    x := d * slope;
  }

  lemma Apart(n: nat, p: nat, q: nat, d: int, slope: int)
    requires p - q == d
    ensures n * (p * slope) - n * (q * slope) == n * (d * slope)
  {
    MulDist(q, d, slope);
    assert n * (p * slope) == n * (q * slope + d * slope);
  }

  /** With drains of equal length the drift cancels exactly, and the tuning stays at the start window. */
  lemma DriftCancels(l: Loop, hs: seq<nat>, tau: nat, slope: int, d: nat)
    requires AtWork(l) && PhaseOf(l) == MeasureStart(NO_RATE) && l.tune.tuner.value.target != START_WINDOW
    requires tau >= 1 && |hs| == 3 * Fill(MEASURE, tau) + 2 * Fill(SETTLE, tau) + d + d && Affine(hs, slope)
    ensures var (_, l7) := TuneThrough(l, hs, tau, d, d);
      && l7.tune.outcome.Some?
      && var (choice, _) := l7.tune.outcome.value; choice.window == START_WINDOW && choice.triedRate == choice.startRate
  {
    var (c1, c2, c3, c4, c5, c6) := Cuts(Fill(MEASURE, tau), Fill(SETTLE, tau), d, d);
    var before, tried, after := RateOf(hs[..c1], tau), RateOf(hs[c3..c4], tau), RateOf(hs[c6..], tau);
    DriftMeasured(hs, tau, slope, d, d);
    OnTheMean(before, tried, after, tau, (d - d) * slope);
    ThroughMeasures(l, hs, tau, d, d);
    RateNotNegative(hs[c3..c4], tau);
    assert !Keep(before, tried, after);
  }

  lemma OnTheMean(before: real, tried: real, after: real, tau: nat, x: int)
    requires OffTheMean(before, tried, after, tau, x) && x == 0 && tau >= 1
    ensures tried == (before + after) / 2.0
  {
  }

  lemma RateNotNegative(hs: seq<nat>, tau: nat)
    ensures RateOf(hs, tau) >= 0.0
  {
  }
}
