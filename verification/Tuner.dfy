/**
 The window tuner of one card (src/tuning.rs) and the worker's side of it
 (`Tune`, src/gpu_worker.rs): three measurements, of the start window, of a
 bigger one and of the start window once more, and a choice. Times are in
 nanoseconds of GPU time, rates are real numbers.
 */
module Tuner {
  import opened Machine
  import opened Layout

  const MEASURE: nat := 60_000_000_000
  const WARM_UP: nat := 90_000_000_000
  const SETTLE: nat := 30_000_000_000
  const MIN_GAIN: real := 0.005
  const MAX_DRIFT: real := 0.05

  datatype Choice = Choice(window: nat, startRate: real, tried: nat, triedRate: real)

  datatype Action = Wait | Build(window: nat) | Switch(window: nat) | Done(choice: Choice, remember: bool)

  /** Hashes over GPU time. */
  datatype Rate = Rate(hashes: nat, busy: nat)
  {
    function Add(hashes: nat, busy: nat): Rate { Rate(this.hashes + hashes, this.busy + busy) }
    function PerSecond(): real { hashes as real * 1_000_000_000.0 / Max(busy, 1) as real }
  }

  const NO_RATE := Rate(0, 0)

  datatype Phase =
    | WarmUp(mined: nat)
    | MeasureStart(rate: Rate)
    | Settle(before: real, mined: nat)
    | MeasureTarget(before: real, rate: Rate)
    | SettleBack(before: real, tried: real, mined: nat)
    | MeasureBack(before: real, tried: real, rate: Rate)
    | Return(choice: Choice, remember: bool)
    | Recalled(window: nat)
    | Finished

  /** A tuner's fields. */
  datatype Tuning = Tuning(target: nat, fallback: seq<nat>, ready: bool, phase: Phase)

  // ----- What each event does -----

  function Abs(x: real): real { if x < 0.0 then -x else x }

  /** Is a target tried at rate `tried`, between start-window rates `before` and `after`, worth keeping? */
  predicate Keep(before: real, tried: real, after: real)
  {
    tried > (before + after) / 2.0 * (1.0 + MIN_GAIN)
  }

  function Verdict(target: nat, before: real, tried: real, after: real): Choice
  {
    Choice(if Keep(before, tried, after) then target else START_WINDOW, (before + after) / 2.0, target, tried)
  }

  /** Are the two start-window rates near enough for the choice to be remembered? */
  predicate Steady(before: real, after: real)
  {
    Abs(before - after) <= (before + after) / 2.0 * MAX_DRIFT
  }

  function OnLaunched(t: Tuning, window: nat, hashes: nat, busy: nat): (Tuning, Action)
  {
    if window != Expected(t) then (t, Wait) else
    match t.phase
    case WarmUp(mined) =>
      if !t.ready then (t, Wait)
      else (t.(phase := if mined + busy >= WARM_UP then MeasureStart(NO_RATE) else WarmUp(mined + busy)), Wait)
    case MeasureStart(rate) =>
      var r := rate.Add(hashes, busy);
      if r.busy < MEASURE then (t.(phase := MeasureStart(r)), Wait)
      else (t.(phase := Settle(r.PerSecond(), 0)), Switch(t.target))
    case Settle(before, mined) =>
      (t.(phase := if mined + busy >= SETTLE then MeasureTarget(before, NO_RATE) else Settle(before, mined + busy)), Wait)
    case MeasureTarget(before, rate) =>
      var r := rate.Add(hashes, busy);
      if r.busy < MEASURE then (t.(phase := MeasureTarget(before, r)), Wait)
      else (t.(phase := SettleBack(before, r.PerSecond(), 0)), Switch(START_WINDOW))
    case SettleBack(before, tried, mined) =>
      (t.(phase := if mined + busy >= SETTLE then MeasureBack(before, tried, NO_RATE) else SettleBack(before, tried, mined + busy)), Wait)
    case MeasureBack(before, tried, rate) =>
      var r := rate.Add(hashes, busy);
      if r.busy < MEASURE then (t.(phase := MeasureBack(before, tried, r)), Wait) else
      var after := r.PerSecond();
      var choice, remember := Verdict(t.target, before, tried, after), Steady(before, after);
      if Keep(before, tried, after) then (t.(phase := Return(choice, remember)), Switch(t.target))
      else (t.(phase := Finished), Done(choice, remember))
    case _ => (t, Wait)
  }

  /** The window whose launches the phase counts. */
  function Expected(t: Tuning): nat
  {
    if t.phase.Settle? || t.phase.MeasureTarget? then t.target else START_WINDOW
  }

  function OnReady(t: Tuning): (Tuning, Action)
  {
    (t.(ready := true), if t.phase.Recalled? then Switch(t.phase.window) else Wait)
  }

  function Unmeasured(window: nat, tried: nat): Choice
  {
    Choice(window, 0.0, tried, 0.0)
  }

  function OnSwitched(t: Tuning, window: nat, ok: bool): (Tuning, Action)
  {
    if ok then
      if t.phase.Return? && window == t.target then (t.(phase := Finished), Done(t.phase.choice, t.phase.remember))
      else if t.phase.Recalled? then (t.(phase := Finished), Done(Unmeasured(window, window), false))
      else (t, Wait)
    else if t.phase.Settle? && window == t.target && t.fallback != [] then
      (t.(target := t.fallback[0], fallback := t.fallback[1..], phase := Settle(t.phase.before, 0)), Switch(t.fallback[0]))
    else
      (t.(phase := Finished),
       if window != START_WINDOW then Done(Unmeasured(START_WINDOW, window), true)
       else Done(Unmeasured(START_WINDOW, t.target), false))
  }

  function Smaller(windows: seq<nat>, w: nat): (s: seq<nat>)
    ensures forall x :: x in s <==> x in windows && x < w
  {
    if windows == [] then []
    else (if windows[0] < w then [windows[0]] else []) + Smaller(windows[1..], w)
  }

  function Start(fitting: Option<nat>, recalled: Option<Choice>): Option<(Tuning, Action)>
  {
    if fitting.None? then None
    else if recalled.Some? then
      var w := recalled.value.window;
      if START_WINDOW < w <= fitting.value then Some((Tuning(w, [], false, Recalled(w)), Build(w))) else None
    else Some((Tuning(fitting.value, Smaller(BIGGER, fitting.value), false, WarmUp(0)), Build(fitting.value)))
  }

  class Tuner {
    var target: nat
    var fallback: seq<nat>
    var ready: bool
    var phase: Phase

    function View(): Tuning
      reads this
    {
      Tuning(target, fallback, ready, phase)
    }

    constructor (t: Tuning)
      ensures View() == t
    {
      target, fallback, ready, phase := t.target, t.fallback, t.ready, t.phase;
    }

    method Launched(window: nat, hashes: nat, busy: nat) returns (action: Action)
      modifies this
      ensures (View(), action) == OnLaunched(old(View()), window, hashes, busy)
    {
      action := Wait;
      match phase {
        case WarmUp(mined) =>
          if window == START_WINDOW && ready {
            phase := WarmUp(mined + busy);
            if mined + busy >= WARM_UP { phase := MeasureStart(NO_RATE); }
          }
        case MeasureStart(rate) =>
          if window == START_WINDOW {
            phase := MeasureStart(rate.Add(hashes, busy));
            if phase.rate.busy >= MEASURE {
              phase := Settle(phase.rate.PerSecond(), 0);
              action := Switch(target);
            }
          }
        case Settle(before, mined) =>
          if window == target {
            phase := Settle(before, mined + busy);
            if phase.mined >= SETTLE { phase := MeasureTarget(before, NO_RATE); }
          }
        case MeasureTarget(before, rate) =>
          if window == target {
            phase := MeasureTarget(before, rate.Add(hashes, busy));
            if phase.rate.busy >= MEASURE {
              phase := SettleBack(before, phase.rate.PerSecond(), 0);
              action := Switch(START_WINDOW);
            }
          }
        case SettleBack(before, tried, mined) =>
          if window == START_WINDOW {
            phase := SettleBack(before, tried, mined + busy);
            if phase.mined >= SETTLE { phase := MeasureBack(before, tried, NO_RATE); }
          }
        case MeasureBack(before, tried, rate) =>
          if window == START_WINDOW { action := Measured(before, tried, rate.Add(hashes, busy)); }
        case _ =>
      }
    }

    /** The end of the second measurement of the start window, or not yet. */
    method Measured(before: real, tried: real, rate: Rate) returns (action: Action)
      modifies this
      ensures target == old(target) && fallback == old(fallback) && ready == old(ready)
      ensures rate.busy < MEASURE ==> phase == MeasureBack(before, tried, rate) && action == Wait
      ensures rate.busy >= MEASURE ==>
        var after := rate.PerSecond();
        var choice, remember := Verdict(target, before, tried, after), Steady(before, after);
        if Keep(before, tried, after) then phase == Return(choice, remember) && action == Switch(target)
        else phase == Finished && action == Done(choice, remember)
    {
      phase := MeasureBack(before, tried, rate);
      if rate.busy < MEASURE { return Wait; }
      var after := rate.PerSecond();
      var startRate := (before + after) / 2.0;
      var remember := Abs(before - after) <= startRate * MAX_DRIFT;
      var keep := tried > startRate * (1.0 + MIN_GAIN);
      var choice := Choice(if keep then target else START_WINDOW, startRate, target, tried);
      if keep {
        phase := Return(choice, remember);
        return Switch(target);
      }
      phase := Finished;
      return Done(choice, remember);
    }

    method Ready() returns (action: Action)
      modifies this
      ensures (View(), action) == OnReady(old(View()))
    {
      ready := true;
      match phase {
        case Recalled(window) => action := Switch(window);
        case _ => action := Wait;
      }
    }

    method Switched(window: nat, ok: bool) returns (action: Action)
      modifies this
      ensures (View(), action) == OnSwitched(old(View()), window, ok)
    {
      if ok {
        if phase.Return? && window == target {
          action := Done(phase.choice, phase.remember);
        } else if phase.Recalled? {
          action := Done(Unmeasured(window, window), false);
        } else {
          return Wait;
        }
      } else if phase.Settle? && window == target && fallback != [] {
        target := fallback[0];
        fallback := fallback[1..];
        phase := Settle(phase.before, 0);
        return Switch(target);
      } else if window != START_WINDOW {
        action := Done(Unmeasured(START_WINDOW, window), true);
      } else {
        action := Done(Unmeasured(START_WINDOW, target), false);
      }
      phase := Finished;
    }
  }

  // ----- The worker's side -----

  /** `Tune`'s fields; `outcome`: what the tuning ended with. */
  datatype TuneView = TuneView(want: nat, tuner: Option<Tuning>, preparing: bool, switchTo: Option<nat>, outcome: Option<(Choice, bool)>)

  function Act(v: TuneView, action: Action): TuneView
  {
    match action
    case Switch(w) => v.(want := w, switchTo := Some(w))
    case Done(choice, remember) => v.(tuner := None, preparing := false, outcome := Some((choice, remember)))
    case _ => v
  }

  /** `Tune::begin`. */
  function Begun(v: TuneView, fitting: Option<nat>, recalled: Option<Choice>): TuneView
  {
    match Start(fitting, recalled)
    case None => v
    case Some((t, _)) => v.(tuner := Some(t), preparing := true)
  }

  /** `Tune::launched`; `compiled`: the compile ahead is over. */
  function TuneLaunched(v: TuneView, window: nat, hashes: nat, busy: nat, compiled: bool): TuneView
  {
    if v.tuner.None? then v else
    var (t, action) := if v.preparing && compiled then OnReady(v.tuner.value) else (v.tuner.value, Wait);
    var (t', action') := if action == Wait then OnLaunched(t, window, hashes, busy) else (t, action);
    Act(v.(tuner := Some(t'), preparing := v.preparing && !compiled), action')
  }

  /** `Tune::switched`, the pending switch taken. */
  function TuneSwitched(v: TuneView, window: nat, ok: bool): TuneView
  {
    if v.tuner.None? then v else
    var (t, action) := OnSwitched(v.tuner.value, window, ok);
    Act(v.(tuner := Some(t), want := if ok then v.want else START_WINDOW), action)
  }

  class Tune {
    var want: nat
    var tuner: Tuner?
    var preparing: bool
    var switchTo: Option<nat>
    var outcome: Option<(Choice, bool)>

    function View(): TuneView
      reads this, tuner
    {
      TuneView(want, if tuner == null then None else Some(tuner.View()), preparing, switchTo, outcome)
    }

    constructor (window: nat)
      ensures View() == TuneView(window, None, false, None, None)
    {
      want, tuner, preparing, switchTo, outcome := window, null, false, None, None;
    }

    method Do(action: Action)
      modifies this
      ensures View() == Act(old(View()), action)
      ensures tuner == null || tuner == old(tuner)
    {
      match action {
        case Wait =>
        case Build(_) =>
        case Switch(w) =>
          want := w;
          switchTo := Some(w);
        case Done(choice, remember) =>
          tuner := null;
          preparing := false;
          outcome := Some((choice, remember));
      }
    }

    method Begin(fitting: Option<nat>, recalled: Option<Choice>)
      modifies this
      ensures View() == Begun(old(View()), fitting, recalled)
      ensures tuner == old(tuner) || fresh(tuner)
    {
      match Start(fitting, recalled) {
        case None =>
        case Some((t, _)) =>
          tuner := new Tuner(t);
          preparing := true;
      }
    }

    method Launched(window: nat, hashes: nat, busy: nat, compiled: bool)
      modifies this, tuner
      ensures View() == TuneLaunched(old(View()), window, hashes, busy, compiled)
      ensures tuner == null || tuner == old(tuner)
    {
      if tuner == null { return; }
      var action := Wait;
      if preparing && compiled {
        preparing := false;
        action := tuner.Ready();
      }
      if action == Wait { action := tuner.Launched(window, hashes, busy); }
      Do(action);
    }

    method Switched(window: nat, ok: bool)
      modifies this, tuner
      ensures View() == TuneSwitched(old(View()), window, ok)
      ensures tuner == null || tuner == old(tuner)
    {
      if tuner == null { return; }
      if !ok { want := START_WINDOW; }
      var action := tuner.Switched(window, ok);
      Do(action);
    }
  }
}
