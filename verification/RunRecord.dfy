/**
 What a worker's machine keeps count of, told from the events of its run
 alone: which failures are in a row, when a device is gone, how often in a row
 it was, when the worker gives it up, and what it reported.
 */
module RunRecord {
  import opened Machine
  import opened SearchSpace
  import opened Scheduler

  predicate Fails(e: Event)
  {
    e == Collect(false) || (e.Queue? && !e.ok)
  }

  /** Failures since the last launch that came back, or since the fifth of them. */
  function FailStreak(run: seq<Event>): (k: nat)
    ensures k < 5
  {
    if run == [] then 0
    else
      var e, was := run[|run| - 1], FailStreak(run[..|run| - 1]);
      if Fails(e) then (if was == 4 then 0 else was + 1) else if e == Collect(true) then 0 else was
  }

  /** The fifth failure in a row fell in the job begun last. */
  predicate GoneIn(run: seq<Event>)
  {
    run != [] &&
    (var e, was := run[|run| - 1], run[..|run| - 1];
     !e.Begin? && (GoneIn(was) || (Fails(e) && FailStreak(was) == 4)))
  }

  /** A launch was finished since the last job ended. */
  predicate FinishedIn(run: seq<Event>)
  {
    run != [] && (var e := run[|run| - 1]; e.Finish? || (!e.End? && FinishedIn(run[..|run| - 1])))
  }

  /** Jobs that ended with the device gone, since the last in which a launch was finished. */
  function GoneJobs(run: seq<Event>): (k: nat)
  {
    if run == [] then 0
    else
      var e, was := run[|run| - 1], run[..|run| - 1];
      if !e.End? then GoneJobs(was)
      else (if FinishedIn(was) then 0 else GoneJobs(was)) + if GoneIn(was) then 1 else 0
  }

  /** Some job ended with the device gone that was the sixth such in a row, or was not opened again. */
  predicate GivenUp(run: seq<Event>)
  {
    run != [] &&
    (var e, was := run[|run| - 1], run[..|run| - 1];
     GivenUp(was) || (e.End? && GoneIn(was) && (GoneJobs(run) >= 6 || !e.reopened)))
  }

  /** The space of the job begun last. */
  function SpaceOf(run: seq<Event>): (sp: Option<Space>)
  {
    if run == [] then None
    else if run[|run| - 1].Begin? then Some(run[|run| - 1].space)
    else SpaceOf(run[..|run| - 1])
  }

  /** How that job was decided to end. */
  function DecidedTo(run: seq<Event>): (end: Option<JobEnd>)
  {
    if run == [] || run[|run| - 1].Begin? then None
    else if run[|run| - 1].Decide? then Some(run[|run| - 1].end)
    else DecidedTo(run[..|run| - 1])
  }

  /** One report per job: its space, how it ended, and whether a launch failed to come back after that was decided. */
  function Told(run: seq<Event>): (rs: seq<Report>)
  {
    if run == [] then []
    else
      var was := run[..|run| - 1];
      if !run[|run| - 1].End? || SpaceOf(was).None? || (!GoneIn(was) && DecidedTo(was).None?) then Told(was)
      else Told(was) + [Report(SpaceOf(was).value, if GoneIn(was) then DeviceGone else DecidedTo(was).value, LateIn(was))]
  }

  /** The state's counters are what the events say. */
  ghost predicate Recorded(s: State, run: seq<Event>)
  {
    && s.errors == FailStreak(run) && (s.gone <==> GoneIn(run)) && (s.back > 0 <==> FinishedIn(run))
    && s.reopens == GoneJobs(run) && (s.alive <==> !GivenUp(run))
    && s.space == SpaceOf(run) && s.decided == DecidedTo(run) && s.reports == Told(run)
  }

  lemma StepRecorded(w: u64, n: u64, s: State, e: Event, was: seq<Event>, run: seq<Event>)
    requires Legal(s, e) && Recorded(s, was) && Placed(s) && Lively(s) && (s.late <==> LateIn(was))
    requires run != [] && run[..|run| - 1] == was && run[|run| - 1] == e
    ensures Recorded(Step(w, n, s, e), run)
  {
    match e
    case Begin(_) =>
    case Queue(_, _) =>
    case Collect(_) =>
    case Finish(_) =>
    case Decide(_) =>
    case End(_) =>
  }

  lemma {:induction false} EveryRunRecords(w: u64, n: u64, run: seq<Event>)
    requires w < n && LegalRun(w, n, run)
    ensures Recorded(Replay(w, n, run), run)
  {
    if run != [] {
      var i := |run| - 1;
      EveryRunRecords(w, n, run[..i]);
      EveryRunDecides(w, n, run[..i]);
      InSpace(w, n, run[..i]);
      EveryRunLively(w, n, run[..i]);
      StepRecorded(w, n, Replay(w, n, run[..i]), run[i], run[..i], run);
    }
  }

  /**
   A device is gone at the fifth failure in a row and at no other time,
   whatever jobs begin and end in between: a launch that comes back starts the
   count afresh, and so does the fifth.
   */
  lemma FiveInARow(w: u64, n: u64, run: seq<Event>, e: Event)
    requires w < n && LegalRun(w, n, run) && Legal(Replay(w, n, run), e)
    ensures var s, s' := Replay(w, n, run), Step(w, n, Replay(w, n, run), e);
      && s.errors == FailStreak(run)
      && (!s.gone && s'.gone <==> Fails(e) && FailStreak(run) == 4)
  {
    EveryRunRecords(w, n, run);
    Longer(w, n, run, e);
    EveryRunRecords(w, n, run + [e]);
  }

  lemma Longer(w: u64, n: u64, run: seq<Event>, e: Event)
    requires LegalRun(w, n, run) && Legal(Replay(w, n, run), e)
    ensures LegalRun(w, n, run + [e]) && Replay(w, n, run + [e]) == Step(w, n, Replay(w, n, run), e)
  {
    assert (run + [e])[..|run|] == run;
  }

  /**
   A worker gives its device up when it is gone in six jobs with no launch
   finished in any but, perhaps, the first, or when it cannot be opened again -
   and not otherwise. What it has reported is one report per job, as each ended.
   */
  lemma GivesUpAndTells(w: u64, n: u64, run: seq<Event>)
    requires w < n && LegalRun(w, n, run)
    ensures var s := Replay(w, n, run);
      (s.alive <==> !GivenUp(run)) && s.reopens == GoneJobs(run) && s.reports == Told(run)
  {
    EveryRunRecords(w, n, run);
  }
}
