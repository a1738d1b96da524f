/**
 What a tuning has asked of the card by the time it is over, switch by switch,
 and what it makes of the answers: every window worth trying is tried.
 */
module TuningAnswers {
  import opened Machine
  import opened Layout
  import opened Tuner
  import opened TuningRuns

  /** The windows to be tried, in this order: the one that fits best, then those of BIGGER below it. */
  function Candidates(fitting: nat): (ws: seq<nat>)
    ensures |ws| >= 1
  {
    [fitting] + Smaller(BIGGER, fitting)
  }

  /** No window of `windows` below `w` is left out, and they keep their order. */
  lemma {:induction false} SmallerSkipsNone(windows: seq<nat>, w: nat)
    ensures forall x :: x in windows && x < w <==> x in Smaller(windows, w)
    ensures Descending(windows) ==> Descending(Smaller(windows, w))
  {
    if Descending(windows) { SmallerDescends(windows, w); }
  }

  /** The first m of them were asked for and failed. */
  function Failed(ws: seq<nat>, m: nat): (answers: seq<(nat, bool)>)
    requires m <= |ws|
    ensures |answers| == m
  {
    seq(m, i requires 0 <= i < m => (ws[i], false))
  }

  lemma FailedMore(ws: seq<nat>, m: nat)
    requires m < |ws|
    ensures Failed(ws, m + 1) == Failed(ws, m) + [(ws[m], false)]
  {
  }

  /** Then the next one succeeded. */
  function Found(ws: seq<nat>, m: nat): seq<(nat, bool)>
    requires m < |ws|
  {
    Failed(ws, m) + [(ws[m], true)]
  }

  /** How far the tuning is with candidate m. */
  ghost predicate Underway(t: Tuning, pending: bool, answers: seq<(nat, bool)>, ws: seq<nat>, m: nat)
    requires m < |ws|
  {
    && t.target == ws[m] && t.fallback == ws[m + 1..]
    && match t.phase
       case WarmUp(_) => m == 0 && answers == []
       case MeasureStart(_) => m == 0 && answers == []
       case Settle(_, _) => answers == if pending then Failed(ws, m) else Found(ws, m)
       case MeasureTarget(_, _) => answers == Found(ws, m)
       case SettleBack(_, _, _) => answers == Found(ws, m) + if pending then [] else [(START_WINDOW, true)]
       case MeasureBack(_, _, _) => answers == Found(ws, m) + [(START_WINDOW, true)]
       case Return(choice, _) =>
         answers == Found(ws, m) + [(START_WINDOW, true)] && choice.window == choice.tried == ws[m] && Faster(choice)
       case _ => false
  }

  /** Faster than the start window by the gain. */
  predicate Faster(c: Choice)
  {
    c.triedRate > c.startRate * (1.0 + MIN_GAIN)
  }

  /** What the tuning came to, with candidate m the one that could be switched to. */
  ghost predicate EndedWith(answers: seq<(nat, bool)>, choice: Choice, remember: bool, ws: seq<nat>, m: nat)
    requires m < |ws|
  {
    // The start window could not be gone back to.
    || (answers == Found(ws, m) + [(START_WINDOW, false)] && choice == Unmeasured(START_WINDOW, ws[m]) && !remember)
    // The candidate is not faster by the gain.
    || (answers == Found(ws, m) + [(START_WINDOW, true)]
        && choice.window == START_WINDOW && choice.tried == ws[m] && !Faster(choice))
    // It is, and the card is back at it.
    || (answers == Found(ws, m) + [(START_WINDOW, true), (ws[m], true)]
        && choice.window == choice.tried == ws[m] && Faster(choice))
    // It is, but could not be gone back to.
    || (answers == Found(ws, m) + [(START_WINDOW, true), (ws[m], false)] && choice == Unmeasured(START_WINDOW, ws[m]) && remember)
  }

  /** Or none of them could be. */
  ghost predicate AllFailed(answers: seq<(nat, bool)>, choice: Choice, remember: bool, ws: seq<nat>)
    requires ws != []
  {
    answers == Failed(ws, |ws|) && choice == Unmeasured(START_WINDOW, ws[|ws| - 1]) && remember
  }

  ghost predicate Ended(answers: seq<(nat, bool)>, choice: Choice, remember: bool, ws: seq<nat>)
    requires ws != []
  {
    AllFailed(answers, choice, remember, ws) || exists m :: 0 <= m < |ws| && EndedWith(answers, choice, remember, ws, m)
  }

  /** Candidate by candidate, from the first to the one that serves or to the last. */
  ghost predicate OnPath(l: Loop, ws: seq<nat>)
    requires ws != []
  {
    match l.tune.tuner
    case Some(t) => exists m :: 0 <= m < |ws| && Underway(t, l.tune.switchTo.Some?, l.answers, ws, m)
    case None => l.tune.outcome.Some? && Ended(l.answers, l.tune.outcome.value.0, l.tune.outcome.value.1, ws)
  }

  /** Where one step takes a tuning that is with candidate m. */
  ghost predicate StillWith(l: Loop, ws: seq<nat>, m: nat)
    requires m < |ws|
  {
    match l.tune.tuner
    case Some(t) => Underway(t, l.tune.switchTo.Some?, l.answers, ws, m)
    case None => l.tune.outcome.Some? && EndedWith(l.answers, l.tune.outcome.value.0, l.tune.outcome.value.1, ws, m)
  }

  lemma LaunchUnderway(l: Loop, e: Event, ws: seq<nat>, m: nat, ph: Phase)
    requires m < |ws| && e.Launch? && Legal(l, e) && l.tune.tuner.Some? && ph == l.tune.tuner.value.phase
    requires PhaseOk(l.tune.tuner.value, l.tune, l.at) && l.tune.tuner.value.target > START_WINDOW
    requires Underway(l.tune.tuner.value, l.tune.switchTo.Some?, l.answers, ws, m)
    ensures StillWith(Next(l, e), ws, m)
  {
    match ph
    case WarmUp(_) =>
    case MeasureStart(_) =>
    case Settle(_, _) =>
    case MeasureTarget(_, _) =>
    case SettleBack(_, _, _) =>
    case MeasureBack(_, _, _) =>
    case Return(_, _) =>
    case Recalled(_) =>
    case Finished =>
  }

  lemma AnswerUnderway(l: Loop, ok: bool, ws: seq<nat>, m: nat, ph: Phase)
    requires m < |ws| && Legal(l, Answer(ok)) && l.tune.tuner.Some? && ph == l.tune.tuner.value.phase
    requires PhaseOk(l.tune.tuner.value, l.tune, l.at) && l.tune.tuner.value.target > START_WINDOW
    requires Underway(l.tune.tuner.value, l.tune.switchTo.Some?, l.answers, ws, m)
    ensures OnPath(Next(l, Answer(ok)), ws)
  {
    var l' := Next(l, Answer(ok));
    match ph
    case WarmUp(_) =>
    case MeasureStart(_) =>
    case Settle(_, _) =>
      if !ok {
        FailedMore(ws, m);
        if m + 1 < |ws| { assert Underway(l'.tune.tuner.value, l'.tune.switchTo.Some?, l'.answers, ws, m + 1); }
      } else {
        assert Underway(l'.tune.tuner.value, l'.tune.switchTo.Some?, l'.answers, ws, m);
      }
    case MeasureTarget(_, _) =>
    case SettleBack(_, _, _) =>
      assert StillWith(l', ws, m);
    case MeasureBack(_, _, _) =>
    case Return(_, _) =>
      assert Found(ws, m) + [(START_WINDOW, true)] + [(ws[m], ok)] == Found(ws, m) + [(START_WINDOW, true), (ws[m], ok)];
      assert StillWith(l', ws, m);
    case Recalled(_) =>
    case Finished =>
  }

  lemma StepOnPath(l: Loop, e: Event, ws: seq<nat>, fits: set<nat>)
    requires ws != [] && Legal(l, e) && LoopOk(l, fits) && OnPath(l, ws) && l.tune.tuner.Some?
    ensures OnPath(Next(l, e), ws)
  {
    var m :| 0 <= m < |ws| && Underway(l.tune.tuner.value, l.tune.switchTo.Some?, l.answers, ws, m);
    match e
    case Launch(_, _, _, _) =>
      LaunchUnderway(l, e, ws, m, l.tune.tuner.value.phase);
      assert StillWith(Next(l, e), ws, m);
    case Answer(ok) => AnswerUnderway(l, ok, ws, m, l.tune.tuner.value.phase);
  }

  /** A tuning that is over asks for nothing more. */
  lemma OverStays(l: Loop, e: Event, fits: set<nat>)
    requires Legal(l, e) && LoopOk(l, fits) && l.tune.tuner.None?
    ensures Next(l, e) == l
  {
  }

  lemma {:induction false} EveryRunOnPath(l: Loop, run: seq<Event>, ws: seq<nat>, fits: set<nat>)
    requires ws != [] && LegalRun(l, run) && LoopOk(l, fits) && OnPath(l, ws)
    ensures OnPath(Replay(l, run), ws)
    decreases |run|
  {
    if run != [] {
      var e := run[0];
      if e.Launch? { LaunchKeeps(l, e, fits); } else { AnswerKeeps(l, e, fits); }
      if l.tune.tuner.Some? { StepOnPath(l, e, ws, fits); } else { OverStays(l, e, fits); }
      EveryRunOnPath(Next(l, e), run[1..], ws, fits);
    }
  }

  /**
   Every tuning that starts without a remembered choice: the windows above the
   start that the card was asked for are the candidates in their order, none
   skipped, each after the one before has failed, up to the first that succeeds.
   Over, it has tried that one against the start window and chosen as the
   answers and the rates have it; if every switch failed, every candidate has
   been tried.
   */
  lemma EveryCandidateTried(fitting: nat, free: nat, run: seq<Event>)
    requires FoundIn(Some(fitting), free) && LegalRun(Begin(Some(fitting), None), run)
    ensures OnPath(Replay(Begin(Some(fitting), None), run), Candidates(fitting))
  {
    var l, ws, fits := Begin(Some(fitting), None), Candidates(fitting), Fitting(free);
    FoundUpTo(Some(fitting), free);
    BeginOk(Some(fitting), None, fits);
    assert Underway(l.tune.tuner.value, false, l.answers, ws, 0);
    EveryRunOnPath(l, run, ws, fits);
  }

  /** A tuning with a remembered window: it goes straight there, if that still fits, and stays if the switch succeeds. */
  ghost predicate Recalling(l: Loop, w: nat)
  {
    match l.tune.tuner
    case Some(t) => t.phase == Phase.Recalled(w) && l.answers == []
    case None =>
      exists ok :: l.answers == [(w, ok)]
        && l.tune.outcome == Some(if ok then (Unmeasured(w, w), false) else (Unmeasured(START_WINDOW, w), true))
  }

  lemma {:induction false} EveryRecall(l: Loop, run: seq<Event>, w: nat, fits: set<nat>)
    requires LegalRun(l, run) && LoopOk(l, fits) && Recalling(l, w)
    ensures Recalling(Replay(l, run), w)
    decreases |run|
  {
    if run != [] {
      var e := run[0];
      if e.Launch? { LaunchKeeps(l, e, fits); } else { AnswerKeeps(l, e, fits); }
      EveryRecall(Next(l, e), run[1..], w, fits);
    }
  }

  /**
   A remembered choice is gone straight back to if its window is above the start
   and its tables still fit; else there is no tuning and the card stays at the start.
   */
  lemma RememberedIsGoneTo(fitting: Option<nat>, choice: Choice, free: nat, run: seq<Event>)
    requires FoundIn(fitting, free) && LegalRun(Begin(fitting, Some(choice)), run)
    ensures var l := Replay(Begin(fitting, Some(choice)), run);
      if fitting.Some? && START_WINDOW < choice.window <= fitting.value then Recalling(l, choice.window)
      else l.tune.tuner.None? && l.tune.outcome.None? && l.answers == [] && l.at == START_WINDOW
  {
    var l := Begin(fitting, Some(choice));
    FoundUpTo(fitting, free);
    BeginOk(fitting, Some(choice), Fitting(free));
    if l.tune.tuner.Some? { EveryRecall(l, run, choice.window, Fitting(free)); } else { NothingToTune(l, run, Fitting(free)); }
  }

  lemma {:induction false} NothingToTune(l: Loop, run: seq<Event>, fits: set<nat>)
    requires LegalRun(l, run) && LoopOk(l, fits) && l.tune.tuner.None?
    ensures Replay(l, run) == l
    decreases |run|
  {
    if run != [] {
      OverStays(l, run[0], fits);
      NothingToTune(l, run[1..], fits);
    }
  }

  /** The choice is remembered exactly when neither start-window rate is over their mean by more than half the drift allowed. */
  lemma SteadyIs(before: real, after: real)
    ensures var mean := (before + after) / 2.0;
      Steady(before, after) <==> before <= mean + mean * MAX_DRIFT / 2.0 && after <= mean + mean * MAX_DRIFT / 2.0
  {
  }
}
