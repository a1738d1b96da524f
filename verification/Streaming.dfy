/**
 The pool session's small running structures (src/stratum.rs, src/stats.rs):
 the reject log, the requests waiting for an answer, the share rate. Each is
 held to what it stands for over the whole of its run.
 */
module Streaming {
  import opened Machine

  // ----- Rejects -----

  /** A line said at once, or one that counts those held back. */
  datatype Line = Said(reason: string) | Summary(reason: string, held: nat)

  datatype Window = Window(reason: string, since: nat, held: nat)

  const REJECT_SUMMARY_EVERY: nat := 10_000

  function Times(seen: seq<string>, reason: string): nat
  {
    if seen == [] then 0 else Times(seen[..|seen| - 1], reason) + if seen[|seen| - 1] == reason then 1 else 0
  }

  /** The rejects of a reason that the lines account for. */
  function Told(lines: seq<Line>, reason: string): nat
  {
    if lines == [] then 0
    else Told(lines[..|lines| - 1], reason) + ToldBy(lines[|lines| - 1], reason)
  }

  function ToldBy(line: Line, reason: string): nat
  {
    if line.reason != reason then 0 else if line.Said? then 1 else line.held
  }

  function HeldOf(open: seq<Window>, reason: string): nat
  {
    if open == [] then 0 else HeldOf(open[..|open| - 1], reason) + HeldBy(open[|open| - 1], reason)
  }

  function HeldBy(w: Window, reason: string): nat
  {
    if w.reason == reason then w.held else 0
  }

  lemma {:induction false} ToldConcat(a: seq<Line>, b: seq<Line>, reason: string)
    ensures Told(a + b, reason) == Told(a, reason) + Told(b, reason)
  {
    if b == [] {
      assert a + b == a;
    } else {
      ToldConcat(a, b[..|b| - 1], reason);
      assert (a + b)[..|a + b| - 1] == a + b[..|b| - 1];
    }
  }

  lemma {:induction false} HeldUpdate(open: seq<Window>, i: nat, w: Window, reason: string)
    requires i < |open|
    ensures HeldOf(open[i := w], reason) == HeldOf(open, reason) - HeldBy(open[i], reason) + HeldBy(w, reason)
  {
    if i == |open| - 1 {
      assert open[i := w][..i] == open[..i];
    } else {
      HeldUpdate(open[..|open| - 1], i, w, reason);
      assert open[i := w][..|open| - 1] == open[..|open| - 1][i := w];
    }
  }

  lemma HeldSnoc(open: seq<Window>, w: Window, reason: string)
    ensures HeldOf(open + [w], reason) == HeldOf(open, reason) + HeldBy(w, reason)
  {
    assert (open + [w])[..|open|] == open;
  }

  /** Rejects seen are rejects told, at once or in a count, and rejects still held. */
  ghost predicate AccountedFor(seen: seq<string>, lines: seq<Line>, open: seq<Window>)
  {
    forall reason :: Times(seen, reason) == Told(lines, reason) + HeldOf(open, reason)
  }

  /** Every two lines of one reason are a whole window apart. */
  ghost predicate Spaced(lines: seq<Line>, at: seq<nat>)
    requires |at| == |lines|
  {
    forall i, j :: 0 <= i < j < |lines| && lines[i].reason == lines[j].reason ==> at[j] >= at[i] + REJECT_SUMMARY_EVERY
  }

  predicate Distinct(open: seq<Window>)
  {
    forall i, j :: 0 <= i < j < |open| ==> open[i].reason != open[j].reason
  }

  ghost predicate HasWindow(open: seq<Window>, reason: string)
  {
    exists w :: w in open && w.reason == reason
  }

  /** A window goes by the last line of its reason; without one the last line is a window ago. */
  ghost predicate Dated(open: seq<Window>, lines: seq<Line>, at: seq<nat>, clock: nat)
    requires |at| == |lines|
  {
    && Distinct(open) && (forall w :: w in open ==> w.since <= clock)
    && (forall w, i :: w in open && 0 <= i < |lines| && lines[i].reason == w.reason ==> at[i] <= w.since)
    && (forall i :: 0 <= i < |lines| && !HasWindow(open, lines[i].reason) ==> at[i] + REJECT_SUMMARY_EVERY <= clock)
  }

  lemma TimesSnoc(seen: seq<string>, reason: string, r: string)
    ensures Times(seen + [reason], r) == Times(seen, r) + if r == reason then 1 else 0
  {
    assert (seen + [reason])[..|seen|] == seen;
  }

  /** One more held back in its window. */
  lemma HeldIsHeld(seen: seq<string>, lines: seq<Line>, open: seq<Window>, i: nat)
    requires AccountedFor(seen, lines, open) && i < |open|
    ensures AccountedFor(seen + [open[i].reason], lines, open[i := open[i].(held := open[i].held + 1)])
  {
    var w := open[i].(held := open[i].held + 1);
    forall r ensures Times(seen + [open[i].reason], r) == Told(lines, r) + HeldOf(open[i := w], r) {
      TimesSnoc(seen, open[i].reason, r);
      HeldUpdate(open, i, w, r);
    }
  }

  /** One more said, and its window opened. */
  lemma SaidIsSaid(seen: seq<string>, lines: seq<Line>, open: seq<Window>, reason: string, now: nat)
    requires AccountedFor(seen, lines, open)
    ensures AccountedFor(seen + [reason], lines + [Said(reason)], open + [Window(reason, now, 0)])
  {
    forall r ensures Times(seen + [reason], r) == Told(lines + [Said(reason)], r) + HeldOf(open + [Window(reason, now, 0)], r) {
      TimesSnoc(seen, reason, r);
      HeldSnoc(open, Window(reason, now, 0), r);
      assert (lines + [Said(reason)])[..|lines|] == lines;
    }
  }

  class RejectLog {
    var open: seq<Window>
    /** Every reject so far, every line printed for them and when, and the time. */
    ghost var seen: seq<string>
    ghost var lines: seq<Line>
    ghost var at: seq<nat>
    ghost var clock: nat

    ghost predicate Valid()
      reads this
    {
      && AccountedFor(seen, lines, open)
      && |at| == |lines| && Spaced(lines, at) && Dated(open, lines, at, clock)
    }

    constructor ()
      ensures Valid() && seen == [] && lines == [] && clock == 0
    {
      open, seen, lines, at, clock := [], [], [], [], 0;
    }

    /** The first reject of a reason is said, further ones are held back in its window. */
    method Reject(reason: string, now: nat) returns (line: Option<Line>)
      requires Valid() && now >= clock
      modifies this
      ensures Valid() && seen == old(seen) + [reason] && clock == now
      ensures lines == old(lines) + (if line.Some? then [line.value] else []) && at == old(at) + if line.Some? then [now] else []
      ensures line == if HasWindow(old(open), reason) then None else Some(Said(reason))
      ensures line.Some? ==> open == old(open) + [Window(reason, now, 0)]
      ensures line.None? ==> exists i :: 0 <= i < |old(open)| && old(open)[i].reason == reason
                               && open == old(open)[i := old(open)[i].(held := old(open)[i].held + 1)]
    {
      var i := Find(reason);
      if i < |open| {
        Hold(i, now);
        return None;
      }
      Say(reason, now);
      return Some(Said(reason));
    }

    /** One more held back in the i-th window. */
    method Hold(i: nat, now: nat)
      requires Valid() && now >= clock && i < |open|
      modifies this
      ensures Valid() && seen == old(seen) + [old(open)[i].reason] && clock == now && lines == old(lines) && at == old(at)
      ensures open == old(open)[i := old(open)[i].(held := old(open)[i].held + 1)]
    {
      HoldBack(open, i, lines, at, clock, now);
      HeldIsHeld(seen, lines, open, i);
      seen, clock := seen + [open[i].reason], now;
      open := open[i := open[i].(held := open[i].held + 1)];
    }

    /** The reason said, and its window opened. */
    method Say(reason: string, now: nat)
      requires Valid() && now >= clock && !HasWindow(open, reason)
      modifies this
      ensures Valid() && seen == old(seen) + [reason] && clock == now
      ensures lines == old(lines) + [Said(reason)] && at == old(at) + [now] && open == old(open) + [Window(reason, now, 0)]
    {
      SaidIsSaid(seen, lines, open, reason, now);
      SayOnce(open, reason, lines, at, clock, now);
      seen, clock := seen + [reason], now;
      open := open + [Window(reason, now, 0)];
      lines, at := lines + [Said(reason)], at + [now];
    }

    method Find(reason: string) returns (i: nat)
      ensures i <= |open| && (i < |open| <==> HasWindow(open, reason)) && (i < |open| ==> open[i].reason == reason)
    {
      i := 0;
      while i < |open| && open[i].reason != reason
        invariant i <= |open| && forall j :: 0 <= j < i ==> open[j].reason != reason
      {
        i := i + 1;
      }
      if i < |open| { assert open[i] in open; }
    }

    /** Each window a summary is due for gives one, in their order; the windows that have run on unused go. */
    method Due(now: nat) returns (out: seq<Line>)
      requires Valid() && now >= clock
      modifies this
      ensures Valid() && seen == old(seen) && lines == old(lines) + out && at == old(at) + seq(|out|, _ => now) && clock == now
      ensures out == Summaries(old(open), now) && open == Rolled(old(open), now)
    {
      var kept;
      out, kept := Roll(open, now);
      forall r ensures Told(lines + out, r) + HeldOf(kept, r) == Told(lines, r) + HeldOf(open, r) {
        ToldConcat(lines, out, r);
        RollKeeps(open, now, r);
      }
      RollSpaced(open, lines, at, clock, now);
      open := kept;
      lines := lines + out;
      at := at + seq(|out|, _ => now);
      clock := now;
    }
  }

  lemma HoldBack(open: seq<Window>, i: nat, lines: seq<Line>, at: seq<nat>, clock: nat, now: nat)
    requires i < |open| && |at| == |lines| && Dated(open, lines, at, clock) && now >= clock
    ensures Dated(open[i := open[i].(held := open[i].held + 1)], lines, at, now)
  {
    var w := open[i].(held := open[i].held + 1);
    var open' := open[i := w];
    assert open[i] in open;
    forall k | 0 <= k < |lines| && !HasWindow(open', lines[k].reason) ensures !HasWindow(open, lines[k].reason) {
      assert open'[i] in open';
      forall v | v in open ensures v.reason != lines[k].reason {
        var j :| 0 <= j < |open| && open[j] == v;
        assert open'[j] in open';
      }
    }
  }

  lemma SayOnce(open: seq<Window>, reason: string, lines: seq<Line>, at: seq<nat>, clock: nat, now: nat)
    requires |at| == |lines| && Spaced(lines, at) && Dated(open, lines, at, clock) && now >= clock && !HasWindow(open, reason)
    ensures Spaced(lines + [Said(reason)], at + [now])
    ensures Dated(open + [Window(reason, now, 0)], lines + [Said(reason)], at + [now], now)
  {
    var open', lines' := open + [Window(reason, now, 0)], lines + [Said(reason)];
    assert open'[|open|] in open';
    forall i | 0 <= i < |open| ensures open[i].reason != reason { assert open[i] in open; }
    forall k | 0 <= k < |lines'| && !HasWindow(open', lines'[k].reason) ensures k < |lines| && !HasWindow(open, lines[k].reason) {
      assert forall w :: w in open ==> w in open';
    }
    forall w, k | w in open' && 0 <= k < |lines'| && lines'[k].reason == w.reason ensures (at + [now])[k] <= w.since {
      if k < |lines| && w in open { assert at[k] <= w.since; }
    }
  }

  method Roll(open: seq<Window>, now: nat) returns (out: seq<Line>, kept: seq<Window>)
    ensures out == Summaries(open, now) && kept == Rolled(open, now)
  {
    out, kept := [], [];
    for i := 0 to |open|
      invariant out == Summaries(open[..i], now) && kept == Rolled(open[..i], now)
    {
      RollSnoc(open, i, now);
      var w := open[i];
      if now - w.since < REJECT_SUMMARY_EVERY {
        kept := kept + [w];
      } else if w.held != 0 {
        out := out + [Summary(w.reason, w.held)];
        kept := kept + [w.(since := now, held := 0)];
      }
    }
    assert open[..|open|] == open;
  }

  /** A window that is over, with rejects held back in it. */
  predicate IsDue(w: Window, now: nat)
  {
    now - w.since >= REJECT_SUMMARY_EVERY && w.held != 0
  }

  function Summaries(open: seq<Window>, now: nat): seq<Line>
  {
    if open == [] then []
    else
      var w := open[|open| - 1];
      Summaries(open[..|open| - 1], now) + if IsDue(w, now) then [Summary(w.reason, w.held)] else []
  }

  /** Windows not over stay as they are, those summed up begin again, the rest are forgotten. */
  function Rolled(open: seq<Window>, now: nat): seq<Window>
  {
    if open == [] then []
    else
      var w := open[|open| - 1];
      Rolled(open[..|open| - 1], now) +
      if now - w.since < REJECT_SUMMARY_EVERY then [w] else if w.held != 0 then [w.(since := now, held := 0)] else []
  }

  lemma RollSnoc(open: seq<Window>, i: nat, now: nat)
    requires i < |open|
    ensures var w := open[i];
      && Summaries(open[..i + 1], now) == Summaries(open[..i], now) + (if IsDue(w, now) then [Summary(w.reason, w.held)] else [])
      && Rolled(open[..i + 1], now) == Rolled(open[..i], now) +
           (if now - w.since < REJECT_SUMMARY_EVERY then [w] else if w.held != 0 then [w.(since := now, held := 0)] else [])
  {
    assert open[..i + 1][..i] == open[..i];
  }

  /** What was held is summed up or still held. */
  lemma {:induction false} RollKeeps(open: seq<Window>, now: nat, reason: string)
    ensures Told(Summaries(open, now), reason) + HeldOf(Rolled(open, now), reason) == HeldOf(open, reason)
  {
    if open != [] {
      var was, w := open[..|open| - 1], open[|open| - 1];
      RollKeeps(was, now, reason);
      ToldConcat(Summaries(was, now), if IsDue(w, now) then [Summary(w.reason, w.held)] else [], reason);
      OneLine(Summary(w.reason, w.held), reason);
      var k := Rolled(was, now);
      HeldSnoc(k, w, reason);
      HeldSnoc(k, w.(since := now, held := 0), reason);
      assert k + [] == k;
    }
  }

  /** The windows kept are those not over, and those summed up, begun again; every other one has gone unused. */
  lemma RolledAre(open: seq<Window>, now: nat)
    requires Distinct(open)
    ensures var kept := Rolled(open, now);
      && Distinct(kept)
      && (forall w :: w in kept ==> HasWindow(open, w.reason) && (w in open || w.since == now))
      && (forall w :: w in open && now - w.since < REJECT_SUMMARY_EVERY ==> w in kept)
      && (forall w :: w in open && IsDue(w, now) ==> w.(since := now, held := 0) in kept)
  {
    RolledFrom(open, now);
    RolledApart(open, now);
    RolledStay(open, now);
  }

  lemma {:induction false} RolledFrom(open: seq<Window>, now: nat)
    ensures forall w :: w in Rolled(open, now) ==> HasWindow(open, w.reason) && (w in open || w.since == now)
  {
    if open != [] {
      var was, last := open[..|open| - 1], open[|open| - 1];
      RolledFrom(was, now);
      assert open == was + [last] && last in open;
    }
  }

  lemma {:induction false} RolledStay(open: seq<Window>, now: nat)
    ensures forall w :: w in open && now - w.since < REJECT_SUMMARY_EVERY ==> w in Rolled(open, now)
    ensures forall w :: w in open && IsDue(w, now) ==> w.(since := now, held := 0) in Rolled(open, now)
  {
    if open != [] {
      var was, last := open[..|open| - 1], open[|open| - 1];
      RolledStay(was, now);
      assert open == was + [last];
    }
  }

  lemma {:induction false} RolledApart(open: seq<Window>, now: nat)
    requires Distinct(open)
    ensures Distinct(Rolled(open, now))
  {
    if open != [] {
      var was, last := open[..|open| - 1], open[|open| - 1];
      RolledApart(was, now);
      RolledFrom(was, now);
      var before := Rolled(was, now);
      forall i | 0 <= i < |before| ensures before[i].reason != last.reason {
        assert before[i] in before;
        var v :| v in was && v.reason == before[i].reason;
        var j :| 0 <= j < |was| && was[j] == v;
        assert open[j] == v;
      }
      DistinctMore(before, last);
      DistinctMore(before, last.(since := now, held := 0));
      assert before + [] == before;
    }
  }

  lemma DistinctMore(open: seq<Window>, w: Window)
    requires Distinct(open) && forall i :: 0 <= i < |open| ==> open[i].reason != w.reason
    ensures Distinct(open + [w])
  {
  }

  /** The summaries are of the windows due, each once. */
  lemma {:induction false} SummariesAre(open: seq<Window>, now: nat)
    requires Distinct(open)
    ensures var out := Summaries(open, now);
      && (forall i :: 0 <= i < |out| ==> DueFor(open, out[i].reason, now))
      && OncePerReason(out)
  {
    if open != [] {
      var was, last := open[..|open| - 1], open[|open| - 1];
      SummariesAre(was, now);
      assert open == was + [last] && last in open;
      var before, out := Summaries(was, now), Summaries(open, now);
      forall i | 0 <= i < |before| ensures DueFor(open, before[i].reason, now) && before[i].reason != last.reason {
        assert DueFor(was, before[i].reason, now);
        var w :| w in was && w.reason == before[i].reason && IsDue(w, now);
        assert w in open;
        var k :| 0 <= k < |was| && was[k] == w;
        assert open[k] == w;
      }
    }
  }

  predicate OncePerReason(out: seq<Line>)
  {
    forall i, j :: 0 <= i < j < |out| ==> out[i].reason != out[j].reason
  }

  ghost predicate DueFor(open: seq<Window>, reason: string, now: nat)
  {
    exists w :: w in open && w.reason == reason && IsDue(w, now)
  }

  lemma RollSpaced(open: seq<Window>, lines: seq<Line>, at: seq<nat>, clock: nat, now: nat)
    requires |at| == |lines| && Spaced(lines, at) && Dated(open, lines, at, clock) && now >= clock
    ensures var out := Summaries(open, now);
      Spaced(lines + out, at + seq(|out|, _ => now)) && Dated(Rolled(open, now), lines + out, at + seq(|out|, _ => now), now)
  {
    var out := Summaries(open, now);
    SummariesAre(open, now);
    forall i, k | 0 <= i < |lines| && 0 <= k < |out| && lines[i].reason == out[k].reason
      ensures at[i] + REJECT_SUMMARY_EVERY <= now
    {
      assert DueFor(open, out[k].reason, now);
      LongSince(open, lines[i], at[i], lines, at, clock, now, i);
    }
    SpacedMore(lines, at, out, now);
    KeptDated(open, lines, at, clock, now);
  }

  lemma SpacedMore(lines: seq<Line>, at: seq<nat>, out: seq<Line>, now: nat)
    requires |at| == |lines| && Spaced(lines, at)
    requires OncePerReason(out)
    requires forall i, k :: 0 <= i < |lines| && 0 <= k < |out| && lines[i].reason == out[k].reason ==>
      at[i] + REJECT_SUMMARY_EVERY <= now
    ensures Spaced(lines + out, at + seq(|out|, _ => now))
  {
  }

  /** A line before is a window older than a summary of its reason. */
  lemma LongSince(open: seq<Window>, line: Line, time: nat, lines: seq<Line>, at: seq<nat>, clock: nat, now: nat, i: nat)
    requires |at| == |lines| && Dated(open, lines, at, clock) && i < |lines| && line == lines[i] && time == at[i]
    requires DueFor(open, line.reason, now)
    ensures time + REJECT_SUMMARY_EVERY <= now
  {
    var w :| w in open && w.reason == line.reason && IsDue(w, now);
    assert at[i] <= w.since;
  }

  lemma KeptDated(open: seq<Window>, lines: seq<Line>, at: seq<nat>, clock: nat, now: nat)
    requires |at| == |lines| && Dated(open, lines, at, clock) && now >= clock
    ensures var out := Summaries(open, now);
      Dated(Rolled(open, now), lines + out, at + seq(|out|, _ => now), now)
  {
    var out, kept := Summaries(open, now), Rolled(open, now);
    RolledAre(open, now);
    forall w, i | w in kept && 0 <= i < |lines| && lines[i].reason == w.reason ensures at[i] <= w.since {
      if w.since == now { AtMost(open, lines, at, clock, i); }
    }
    forall w, k | w in kept && 0 <= k < |out| && out[k].reason == w.reason ensures w.since == now {
      if w.since != now { OldWindow(open, kept, w, out, now); }
    }
    forall k | 0 <= k < |out| ensures HasWindow(kept, out[k].reason) { DueIsKept(open, now, k); }
    forall i | 0 <= i < |lines| && !HasWindow(kept, lines[i].reason) ensures at[i] + REJECT_SUMMARY_EVERY <= now {
      if HasWindow(open, lines[i].reason) { GoneUnused(open, lines, at, clock, now, i); }
    }
    DatedMore(kept, lines, at, out, now);
  }

  lemma DatedMore(kept: seq<Window>, lines: seq<Line>, at: seq<nat>, out: seq<Line>, now: nat)
    requires |at| == |lines| && Distinct(kept) && forall w :: w in kept ==> w.since <= now
    requires forall w, i :: w in kept && 0 <= i < |lines| && lines[i].reason == w.reason ==> at[i] <= w.since
    requires forall w, k :: w in kept && 0 <= k < |out| && out[k].reason == w.reason ==> w.since == now
    requires forall i :: 0 <= i < |lines| && !HasWindow(kept, lines[i].reason) ==> at[i] + REJECT_SUMMARY_EVERY <= now
    requires forall k :: 0 <= k < |out| ==> HasWindow(kept, out[k].reason)
    ensures Dated(kept, lines + out, at + seq(|out|, _ => now), now)
  {
    var all := lines + out;
    assert forall i :: 0 <= i < |lines| ==> all[i] == lines[i];
    assert forall i :: |lines| <= i < |all| ==> all[i] == out[i - |lines|];
  }

  lemma DueIsKept(open: seq<Window>, now: nat, k: nat)
    requires Distinct(open) && k < |Summaries(open, now)|
    ensures HasWindow(Rolled(open, now), Summaries(open, now)[k].reason)
  {
    SummariesAre(open, now);
    RolledAre(open, now);
    assert DueFor(open, Summaries(open, now)[k].reason, now);
    var w :| w in open && w.reason == Summaries(open, now)[k].reason && IsDue(w, now);
    assert w.(since := now, held := 0) in Rolled(open, now);
  }

  lemma GoneUnused(open: seq<Window>, lines: seq<Line>, at: seq<nat>, clock: nat, now: nat, i: nat)
    requires |at| == |lines| && Dated(open, lines, at, clock) && i < |lines|
    requires HasWindow(open, lines[i].reason) && !HasWindow(Rolled(open, now), lines[i].reason)
    ensures at[i] + REJECT_SUMMARY_EVERY <= now
  {
    RolledAre(open, now);
    var w :| w in open && w.reason == lines[i].reason;
    assert at[i] <= w.since;
    assert w !in Rolled(open, now);
  }

  lemma AtMost(open: seq<Window>, lines: seq<Line>, at: seq<nat>, clock: nat, i: nat)
    requires |at| == |lines| && Dated(open, lines, at, clock) && i < |lines|
    ensures at[i] <= clock
  {
    if HasWindow(open, lines[i].reason) {
      var w :| w in open && w.reason == lines[i].reason;
      assert at[i] <= w.since;
    }
  }

  /** A window kept as it was is not over, so it has no summary. */
  lemma OldWindow(open: seq<Window>, kept: seq<Window>, w: Window, out: seq<Line>, now: nat)
    requires Distinct(open) && kept == Rolled(open, now) && out == Summaries(open, now) && w in kept && w.since != now
    ensures w in open && forall i :: 0 <= i < |out| ==> out[i].reason != w.reason
  {
    RolledAre(open, now);
    SummariesAre(open, now);
    forall i | 0 <= i < |out| ensures out[i].reason != w.reason {
      var v :| v in open && v.reason == out[i].reason && IsDue(v, now);
      if v.reason == w.reason { SameWindow(open, v, w); SameWindow(kept, v.(since := now, held := 0), w); }
    }
  }

  lemma SameWindow(open: seq<Window>, v: Window, w: Window)
    requires Distinct(open) && v in open && w in open && v.reason == w.reason
    ensures v == w
  {
    var i :| 0 <= i < |open| && open[i] == v;
    var j :| 0 <= j < |open| && open[j] == w;
  }

  lemma OneLine(line: Line, reason: string)
    ensures Told([line], reason) == ToldBy(line, reason) && Told([], reason) == 0
  {
    assert [line][..0] == [];
  }

  // ----- Requests waiting for an answer -----

  const OUTSTANDING_MAX_AGE: nat := 120_000

  datatype Request = Request(id: nat, time: nat)

  predicate Before(a: Request, b: Request)
  {
    a.time <= b.time && a.id != b.id
  }

  /** Sent in the order of time, no id twice. */
  predicate InOrder(sent: seq<Request>)
  {
    forall i, j :: 0 <= i < j < |sent| ==> Before(sent[i], sent[j])
  }

  /** The requests as a map from id to time. */
  function Table(sent: seq<Request>): map<nat, nat>
  {
    if sent == [] then map[] else Table(sent[..|sent| - 1])[sent[|sent| - 1].id := sent[|sent| - 1].time]
  }

  /** The requests of a table not older than the limit. */
  function Pruned(table: map<nat, nat>, now: nat): map<nat, nat>
  {
    map id | id in table && now - table[id] <= OUTSTANDING_MAX_AGE :: table[id]
  }

  lemma {:induction false} TableHas(sent: seq<Request>, id: nat)
    requires InOrder(sent)
    ensures id in Table(sent) <==> exists i :: 0 <= i < |sent| && sent[i].id == id
    ensures forall i :: 0 <= i < |sent| && sent[i].id == id ==> Table(sent)[id] == sent[i].time
  {
    if sent != [] {
      var was, last := sent[..|sent| - 1], sent[|sent| - 1];
      TableHas(was, id);
      if last.id != id && exists i :: 0 <= i < |sent| && sent[i].id == id {
        var i :| 0 <= i < |sent| && sent[i].id == id;
        assert was[i].id == id;
      }
    }
  }

  lemma {:induction false} TableConcat(a: seq<Request>, b: seq<Request>)
    ensures Table(a + b) == Table(a) + Table(b)
  {
    if b == [] {
      assert a + b == a;
    } else {
      TableConcat(a, b[..|b| - 1]);
      assert (a + b)[..|a + b| - 1] == a + b[..|b| - 1];
    }
  }

  class Outstanding {
    var sent: seq<Request>

    ghost predicate Valid()
      reads this
    {
      InOrder(sent)
    }

    constructor ()
      ensures Valid() && Table(sent) == map[]
    {
      sent := [];
    }

    /** Request ids are not used twice, and time does not go back. */
    method Sent(id: nat, now: nat)
      requires Valid() && id !in Table(sent) && forall i :: 0 <= i < |sent| ==> sent[i].time <= now
      modifies this
      ensures Valid() && Table(sent) == Pruned(old(Table(sent)), now)[id := now]
    {
      var was, n := sent, 0;
      while sent != [] && now - sent[0].time > OUTSTANDING_MAX_AGE
        invariant n <= |was| && sent == was[n..]
        invariant forall i :: 0 <= i < n ==> now - was[i].time > OUTSTANDING_MAX_AGE
        decreases |sent|
      {
        sent := sent[1..];
        n := n + 1;
      }
      assert n < |was| ==> sent[0] == was[n];
      DropIsPrune(was, n, now);
      SendKeeps(was, n, id, now);
      sent := sent + [Request(id, now)];
    }

    /** The round trip of a request, once. */
    method Answered(id: nat, now: nat) returns (trip: Option<nat>)
      requires Valid() && forall i :: 0 <= i < |sent| ==> sent[i].time <= now
      modifies this
      ensures Valid() && trip == (if id in old(Table(sent)) then Some(now - old(Table(sent))[id]) else None)
      ensures Table(sent) == old(Table(sent)) - {id}
    {
      var i := 0;
      while i < |sent| && sent[i].id != id
        invariant i <= |sent| && forall j :: 0 <= j < i ==> sent[j].id != id
      {
        i := i + 1;
      }
      TableHas(sent, id);
      if i == |sent| { return None; }
      trip := Some(now - sent[i].time);
      RemoveIsRemove(sent, i);
      sent := sent[..i] + sent[i + 1..];
    }
  }

  /** Dropping the front while it is too old is pruning the table. */
  lemma DropIsPrune(sent: seq<Request>, n: nat, now: nat)
    requires InOrder(sent) && n <= |sent|
    requires forall i :: 0 <= i < n ==> now - sent[i].time > OUTSTANDING_MAX_AGE
    requires n < |sent| ==> now - sent[n].time <= OUTSTANDING_MAX_AGE
    ensures InOrder(sent[n..]) && Table(sent[n..]) == Pruned(Table(sent), now)
  {
    var left := sent[n..];
    assert forall i :: n < i < |sent| ==> Before(sent[n], sent[i]);
    forall id ensures id in Table(left) <==> id in Pruned(Table(sent), now) {
      TableHas(sent, id);
      TableHas(left, id);
      if id in Table(left) {
        var i :| 0 <= i < |left| && left[i].id == id;
        assert sent[n + i].id == id;
      }
      if id in Pruned(Table(sent), now) {
        var i :| 0 <= i < |sent| && sent[i].id == id;
        assert i >= n;
        assert left[i - n].id == id;
      }
    }
    forall id | id in Table(left) ensures Table(left)[id] == Table(sent)[id] {
      TableHas(left, id);
      TableHas(sent, id);
      var i :| 0 <= i < |left| && left[i].id == id;
      assert sent[n + i].id == id;
    }
  }

  lemma SendKeeps(was: seq<Request>, n: nat, id: nat, now: nat)
    requires InOrder(was) && n <= |was| && id !in Table(was) && forall i :: 0 <= i < |was| ==> was[i].time <= now
    ensures InOrder(was[n..] + [Request(id, now)])
    ensures Table(was[n..] + [Request(id, now)]) == Table(was[n..])[id := now]
  {
    TableHas(was, id);
    forall i | 0 <= i < |was[n..]| ensures Before(was[n..][i], Request(id, now)) {
      assert was[n..][i] == was[n + i];
    }
    OrderSnoc(was[n..], Request(id, now));
    TableSnoc(was[n..], Request(id, now));
  }

  lemma OrderSnoc(sent: seq<Request>, r: Request)
    requires InOrder(sent) && forall i :: 0 <= i < |sent| ==> Before(sent[i], r)
    ensures InOrder(sent + [r])
  {
  }

  lemma TableSnoc(sent: seq<Request>, r: Request)
    ensures Table(sent + [r]) == Table(sent)[r.id := r.time]
  {
    assert (sent + [r])[..|sent|] == sent;
  }

  lemma RemoveIsRemove(sent: seq<Request>, k: nat)
    requires InOrder(sent) && k < |sent|
    ensures InOrder(sent[..k] + sent[k + 1..]) && Table(sent[..k] + sent[k + 1..]) == Table(sent) - {sent[k].id}
  {
    var a, r, b := sent[..k], sent[k], sent[k + 1..];
    RemoveInOrder(sent, k);
    TableHas(a, r.id);
    TableHas(b, r.id);
    TableConcat(a, b);
    TableConcat(a + [r], b);
    TableConcat(a, [r]);
    assert sent == (a + [r]) + b;
    OneRow(r);
    WithoutRow(Table(a), r.id, r.time, Table(b));
  }

  lemma RemoveInOrder(sent: seq<Request>, k: nat)
    requires InOrder(sent) && k < |sent|
    ensures InOrder(sent[..k] + sent[k + 1..])
  {
    var s := sent[..k] + sent[k + 1..];
    forall i, j | 0 <= i < j < |s| ensures Before(s[i], s[j]) {
      var x, y := (if i < k then i else i + 1), (if j < k then j else j + 1);
      assert s[i] == sent[x] && s[j] == sent[y];
    }
  }

  lemma OneRow(r: Request)
    ensures Table([r]) == map[r.id := r.time]
  {
    assert [r][..0] == [];
  }

  lemma WithoutRow(a: map<nat, nat>, id: nat, time: nat, b: map<nat, nat>)
    requires id !in a && id !in b
    ensures a + map[id := time] + b - {id} == a + b
  {
  }

  // ----- Shares a minute -----

  const SHARE_RATE_WINDOW: nat := 60_000

  datatype Sample = Sample(time: nat, accepted: nat)

  predicate Rising(all: seq<Sample>)
  {
    forall i, j :: 0 <= i < j < |all| ==> all[i].time <= all[j].time
  }

  /** Sample `base` is at least a window old, or the start; all after it are younger. */
  predicate NewestOld(all: seq<Sample>, base: nat, now: nat)
  {
    && base < |all| && (base > 0 ==> now - all[base].time >= SHARE_RATE_WINDOW)
    && forall i :: base < i < |all| ==> now - all[i].time < SHARE_RATE_WINDOW
  }

  class ShareRate {
    var samples: seq<Sample>
    /** Every sample taken, the start first, and how many of them are gone. */
    ghost var all: seq<Sample>
    ghost var base: nat

    ghost predicate Valid()
      reads this
    {
      && base < |all| && samples == all[base..] && Rising(all)
      && (base > 0 ==> all[|all| - 1].time - all[base].time >= SHARE_RATE_WINDOW)
    }

    constructor (start: nat, accepted: nat)
      ensures Valid() && all == [Sample(start, accepted)]
    {
      samples, all, base := [Sample(start, accepted)], [Sample(start, accepted)], 0;
    }

    /** The rate since the newest sample at least a window old, or since the start. */
    method PerMinute(now: nat, accepted: nat) returns (rate: real)
      requires Valid() && all[|all| - 1].time <= now
      modifies this
      ensures Valid() && all == old(all) + [Sample(now, accepted)] && NewestOld(all, base, now)
      ensures rate == RateSince(all[base], now, accepted)
      ensures IsRate(rate, all[base], now, accepted)
    {
      ghost var grown := all + [Sample(now, accepted)];
      Grows(all, base, now, accepted);
      samples := samples + [Sample(now, accepted)];
      all := grown;
      while |samples| > 1 && now - samples[1].time >= SHARE_RATE_WINDOW
        invariant base < |all| && all == grown && samples == all[base..]
        invariant base > 0 ==> now - all[base].time >= SHARE_RATE_WINDOW
        decreases |samples|
      {
        assert samples[1] == all[base + 1];
        assert samples[1..] == all[base + 1..];
        samples := samples[1..];
        base := base + 1;
      }
      Youngest(all, base, now);
      RateIs(all[base], now, accepted);
      rate := RateSince(samples[0], now, accepted);
    }
  }

  lemma Grows(all: seq<Sample>, base: nat, now: nat, accepted: nat)
    requires base < |all| && Rising(all) && all[|all| - 1].time <= now
    requires base > 0 ==> all[|all| - 1].time - all[base].time >= SHARE_RATE_WINDOW
    ensures var grown := all + [Sample(now, accepted)];
      Rising(grown) && grown[base..] == all[base..] + [Sample(now, accepted)]
      && (base > 0 ==> now - grown[base].time >= SHARE_RATE_WINDOW)
  {
    var grown := all + [Sample(now, accepted)];
    forall i, j | 0 <= i < j < |grown| ensures grown[i].time <= grown[j].time {
      if j == |all| && i < |all| - 1 { assert all[i].time <= all[|all| - 1].time; }
    }
  }

  lemma Youngest(all: seq<Sample>, base: nat, now: nat)
    requires base < |all| && Rising(all) && (base > 0 ==> now - all[base].time >= SHARE_RATE_WINDOW)
    requires base + 1 < |all| ==> now - all[base + 1].time < SHARE_RATE_WINDOW
    ensures NewestOld(all, base, now)
  {
    forall i | base < i < |all| ensures now - all[i].time < SHARE_RATE_WINDOW {
      if i > base + 1 { assert all[base + 1].time <= all[i].time; }
    }
  }

  /** At that rate a minute, as many shares come in since the sample as did. */
  predicate IsRate(rate: real, s: Sample, now: nat, accepted: nat)
  {
    now > s.time && accepted >= s.accepted ==> rate * (now - s.time) as real == (accepted - s.accepted) as real * 60_000.0
  }

  lemma RateIs(s: Sample, now: nat, accepted: nat)
    ensures IsRate(RateSince(s, now, accepted), s, now, accepted)
  {
  }

  /** Shares a minute since a sample; 0 where no time has passed. */
  function RateSince(s: Sample, now: nat, accepted: nat): real
  {
    if now <= s.time then 0.0 else Max(accepted - s.accepted, 0) as real * 60_000.0 / (now - s.time) as real
  }
}
