/**
 The host's tables (bc3hash/src/lib.rs `gpu_tables`): the power tables and every
 row of every curve as items of one queue, taken and filled by any number of
 threads, each a place at a time, in whatever order they get to run.
 */
module TablePool {
  import opened Machine
  import opened Layout
  import opened Tables
  import opened TableBuilders

  /** An item: the power tables, or one row of a curve. */
  datatype Job = PowerPart(places: seq<Place>) | RowOf(row: Row, curve: nat)

  function Size(j: Job): nat
  {
    match j case PowerPart(places) => |places| case RowOf(row, _) => row.places
  }

  /** What the item's slice is to hold. */
  function Content(n: nat, j: Job): (s: seq<Place>)
    requires n >= 1
    ensures |s| == Size(j)
  {
    match j case PowerPart(places) => places case RowOf(row, curve) => RowPlaces(n, row, curve)
  }

  /** All of it, item after item. */
  function Filled(n: nat, jobs: seq<Job>): seq<Place>
    requires n >= 1
  {
    if jobs == [] then [] else Filled(n, jobs[..|jobs| - 1]) + Content(n, jobs[|jobs| - 1])
  }

  /** Where item `i`'s slice of the buffer begins. */
  function Offset(jobs: seq<Job>, i: nat): nat
    requires i <= |jobs|
  {
    if i == 0 then 0 else Offset(jobs, i - 1) + Size(jobs[i - 1])
  }

  // ----- What a thread computes -----

  /** `point`: the one it wrote last. */
  datatype Thread = Idle | Filling(item: nat, done: nat, point: nat)

  /** The base of a row by one multiplication, as `curve_row` has it; 0 where it is refused. */
  function BaseFor(n: nat, pos: nat): nat
    requires n >= 1
  {
    if pos == 0 then 1 else match TweakMul(n, 1, Pow2(pos)) case None => 0 case Some(p) => p
  }

  /** The next place of an item, and the point in it: the last point and the base, added. */
  function Produced(n: nat, j: Job, done: nat, point: nat): (Place, nat)
    requires n >= 1
  {
    match j
    case PowerPart(places) => (if done < |places| then places[done] else Zeros, 0)
    case RowOf(row, curve) =>
      if done >= row.points then (Zeros, point) else
      var base := BaseFor(n, row.pos);
      var next := if done == 0 then base else match Combine(n, point, base) case None => 0 case Some(p) => p;
      (Point(curve, next), next)
  }

  predicate JobOk(n: nat, j: Job)
  {
    j.RowOf? ==> j.row.pos <= 255 && j.row.points <= j.row.places && j.row.points < n
  }

  predicate PointOk(n: nat, j: Job, done: nat, point: nat)
    requires n >= 1
  {
    j.RowOf? && 0 < done <= j.row.points ==> point == Entry(n, j.row.pos, done)
  }

  lemma BaseIs(n: nat, pos: nat)
    requires OrderOk(n) && pos <= 255
    ensures BaseFor(n, pos) == Entry(n, pos, 1)
  {
    BaseOf(n, pos);
    FirstEntry(n);
  }

  /** What is computed is what the place is to hold. */
  lemma ProducedIs(n: nat, j: Job, done: nat, point: nat)
    requires OrderOk(n) && JobOk(n, j) && done < Size(j) && PointOk(n, j, done, point)
    ensures Produced(n, j, done, point).0 == Content(n, j)[done]
    ensures PointOk(n, j, done + 1, Produced(n, j, done, point).1)
  {
    if j.RowOf? { RowPrefixAt(n, j.row, j.curve, j.row.places, done); }
    if j.RowOf? && done < j.row.points {
      BaseIs(n, j.row.pos);
      if done > 0 { EntryNext(n, j.row.pos, done); }
    }
  }

  // ----- The queue -----

  /** The buffer, the items still in the queue (from `next` on), what each thread is at, and whether an item failed. */
  datatype Pool = Pool(buffer: seq<Place>, next: nat, threads: seq<Thread>, failed: bool)

  /** A thread gets to run; `refused`: the library fails it. */
  datatype Move = Move(thread: nat, refused: bool)

  /** One thread takes an item, writes one place of its slice, is done with it, or gives it up. */
  function Step(n: nat, jobs: seq<Job>, p: Pool, m: Move): Pool
    requires n >= 1
  {
    if m.thread >= |p.threads| then p else
    match p.threads[m.thread]
    case Idle =>
      if p.next < |jobs| then p.(next := p.next + 1, threads := p.threads[m.thread := Filling(p.next, 0, 0)]) else p
    case Filling(item, done, point) =>
      if m.refused then p.(threads := p.threads[m.thread := Idle], failed := true)
      else if item < |jobs| && done < Size(jobs[item]) then
        var (place, next) := Produced(n, jobs[item], done, point);
        Written(p, Offset(jobs, item) + done, place).(threads := p.threads[m.thread := Filling(item, done + 1, next)])
      else p.(threads := p.threads[m.thread := Idle])
  }

  function Written(p: Pool, at: nat, place: Place): Pool
  {
    if at < |p.buffer| then p.(buffer := p.buffer[at := place]) else p
  }

  predicate AtOrBefore(t: Thread, i: nat, k: nat)
  {
    t.Filling? && t.item == i && t.done <= k
  }

  predicate ThreadOk(n: nat, jobs: seq<Job>, t: Thread)
    requires n >= 1
  {
    t.Filling? ==> t.item < |jobs| && PointOk(n, jobs[t.item], t.done, t.point)
  }

  /** Place `k` of item `i` is written, or a thread is on its way to it - unless an item failed. */
  ghost predicate Reached(n: nat, jobs: seq<Job>, p: Pool, i: nat, k: nat)
    requires n >= 1 && i < |jobs| && k < Size(jobs[i]) && |p.buffer| == Offset(jobs, |jobs|)
  {
    OffsetsRise(jobs, i, k);
    || p.failed
    || p.buffer[Offset(jobs, i) + k] == Content(n, jobs[i])[k]
    || exists t :: 0 <= t < |p.threads| && AtOrBefore(p.threads[t], i, k)
  }

  ghost predicate PoolOk(n: nat, jobs: seq<Job>, p: Pool)
    requires n >= 1
  {
    && |p.buffer| == Offset(jobs, |jobs|) && p.next <= |jobs|
    && (forall t :: 0 <= t < |p.threads| ==> ThreadOk(n, jobs, p.threads[t]))
    && forall i, k :: 0 <= i < p.next && 0 <= k < Size(jobs[i]) ==> Reached(n, jobs, p, i, k)
  }

  lemma {:induction false} OffsetsUp(jobs: seq<Job>, i: nat, j: nat)
    requires i <= j <= |jobs|
    ensures Offset(jobs, i) <= Offset(jobs, j)
  {
    if i < j { OffsetsUp(jobs, i, j - 1); }
  }

  lemma OffsetsRise(jobs: seq<Job>, i: nat, k: nat)
    requires i < |jobs| && k < Size(jobs[i])
    ensures Offset(jobs, i) + k < Offset(jobs, i + 1) <= Offset(jobs, |jobs|)
  {
    OffsetsUp(jobs, i + 1, |jobs|);
  }

  /** The slices do not overlap. */
  lemma SlicesApart(jobs: seq<Job>, i: nat, k: nat, j: nat, m: nat)
    requires i < |jobs| && k < Size(jobs[i]) && j < |jobs| && m < Size(jobs[j])
    requires Offset(jobs, i) + k == Offset(jobs, j) + m
    ensures i == j && k == m
  {
    if i < j {
      OffsetsUp(jobs, i + 1, j);
    } else if j < i {
      OffsetsUp(jobs, j + 1, i);
    }
  }

  predicate JobsOk(n: nat, jobs: seq<Job>)
  {
    forall i :: 0 <= i < |jobs| ==> JobOk(n, jobs[i])
  }

  /** What one move does to one place: nothing, or what belongs there. */
  lemma MoveWrites(n: nat, jobs: seq<Job>, p: Pool, m: Move, i: nat, k: nat)
    requires OrderOk(n) && JobsOk(n, jobs) && PoolOk(n, jobs, p) && i < |jobs| && k < Size(jobs[i])
    ensures |Step(n, jobs, p, m).buffer| == |p.buffer|
    ensures Offset(jobs, i) + k < |p.buffer|
    ensures var now := Step(n, jobs, p, m).buffer[Offset(jobs, i) + k];
      now == p.buffer[Offset(jobs, i) + k] || now == Content(n, jobs[i])[k]
  {
    OffsetsRise(jobs, i, k);
    if m.thread < |p.threads| && p.threads[m.thread].Filling? {
      var t := p.threads[m.thread];
      assert ThreadOk(n, jobs, t);
      if t.done < Size(jobs[t.item]) {
        ProducedIs(n, jobs[t.item], t.done, t.point);
        if Offset(jobs, t.item) + t.done == Offset(jobs, i) + k { SlicesApart(jobs, t.item, t.done, i, k); }
      }
    }
  }

  lemma MoveKeepsThreads(n: nat, jobs: seq<Job>, p: Pool, m: Move)
    requires OrderOk(n) && JobsOk(n, jobs) && PoolOk(n, jobs, p)
    ensures var p' := Step(n, jobs, p, m);
      |p'.threads| == |p.threads| && forall t :: 0 <= t < |p'.threads| ==> ThreadOk(n, jobs, p'.threads[t])
  {
    if m.thread < |p.threads| && p.threads[m.thread].Filling? {
      var t := p.threads[m.thread];
      assert ThreadOk(n, jobs, t);
      if t.done < Size(jobs[t.item]) { ProducedIs(n, jobs[t.item], t.done, t.point); }
    }
  }

  lemma MoveReaches(n: nat, jobs: seq<Job>, p: Pool, m: Move, i: nat, k: nat)
    requires OrderOk(n) && JobsOk(n, jobs) && PoolOk(n, jobs, p)
    requires i < Step(n, jobs, p, m).next <= |jobs| && k < Size(jobs[i]) && |Step(n, jobs, p, m).buffer| == |p.buffer|
    ensures Reached(n, jobs, Step(n, jobs, p, m), i, k)
  {
    var p' := Step(n, jobs, p, m);
    MoveWrites(n, jobs, p, m, i, k);
    if i == p.next {
      assert AtOrBefore(p'.threads[m.thread], i, k);
    } else {
      assert Reached(n, jobs, p, i, k);
      if !p.failed && p.buffer[Offset(jobs, i) + k] != Content(n, jobs[i])[k] {
        var u :| 0 <= u < |p.threads| && AtOrBefore(p.threads[u], i, k);
        WayKept(n, jobs, p, m, u, i, k);
      }
    }
  }

  /** A thread on its way to a place stays so until it has written it. */
  lemma WayKept(n: nat, jobs: seq<Job>, p: Pool, m: Move, u: nat, i: nat, k: nat)
    requires OrderOk(n) && JobsOk(n, jobs) && PoolOk(n, jobs, p) && i < |jobs| && k < Size(jobs[i])
    requires u < |p.threads| && AtOrBefore(p.threads[u], i, k) && Offset(jobs, i) + k < |p.buffer|
    ensures var p' := Step(n, jobs, p, m);
      && |p'.threads| == |p.threads| && |p'.buffer| == |p.buffer|
      && (p'.failed || p'.buffer[Offset(jobs, i) + k] == Content(n, jobs[i])[k] || AtOrBefore(p'.threads[u], i, k))
  {
    if m.thread == u {
      assert ThreadOk(n, jobs, p.threads[u]);
      ProducedIs(n, jobs[i], p.threads[u].done, p.threads[u].point);
    }
  }

  lemma MoveKeeps(n: nat, jobs: seq<Job>, p: Pool, m: Move)
    requires OrderOk(n) && JobsOk(n, jobs) && PoolOk(n, jobs, p)
    ensures PoolOk(n, jobs, Step(n, jobs, p, m))
  {
    var p' := Step(n, jobs, p, m);
    MoveKeepsThreads(n, jobs, p, m);
    assert |p'.buffer| == |p.buffer| && p'.next <= |jobs|;
    forall i, k | 0 <= i < p'.next && 0 <= k < Size(jobs[i]) ensures Reached(n, jobs, p', i, k) {
      MoveReaches(n, jobs, p, m, i, k);
    }
  }

  function StartPool(jobs: seq<Job>, threads: nat): Pool
  {
    Pool(seq(Offset(jobs, |jobs|), _ => Zeros), 0, seq(threads, _ => Idle), false)
  }

  /** The pool after `moves`. */
  function Worked(n: nat, jobs: seq<Job>, p: Pool, moves: seq<Move>): Pool
    requires n >= 1
  {
    if moves == [] then p else Step(n, jobs, Worked(n, jobs, p, moves[..|moves| - 1]), moves[|moves| - 1])
  }

  lemma {:induction false} WorkedOk(n: nat, jobs: seq<Job>, threads: nat, moves: seq<Move>)
    requires OrderOk(n) && JobsOk(n, jobs)
    ensures PoolOk(n, jobs, Worked(n, jobs, StartPool(jobs, threads), moves))
  {
    if moves != [] {
      var was := moves[..|moves| - 1];
      WorkedOk(n, jobs, threads, was);
      MoveKeeps(n, jobs, Worked(n, jobs, StartPool(jobs, threads), was), moves[|moves| - 1]);
    }
  }

  predicate AllDone(jobs: seq<Job>, p: Pool)
  {
    p.next == |jobs| && forall t :: 0 <= t < |p.threads| ==> p.threads[t].Idle?
  }

  lemma {:induction false} FilledLength(n: nat, jobs: seq<Job>, m: nat)
    requires n >= 1 && m <= |jobs|
    ensures |Filled(n, jobs[..m])| == Offset(jobs, m)
  {
    if m > 0 {
      assert jobs[..m][..m - 1] == jobs[..m - 1];
      FilledLength(n, jobs, m - 1);
    }
  }

  lemma {:induction false} FilledAt(n: nat, jobs: seq<Job>, m: nat, i: nat, k: nat)
    requires n >= 1 && i < m <= |jobs| && k < Size(jobs[i])
    ensures Offset(jobs, i) + k < |Filled(n, jobs[..m])| && Filled(n, jobs[..m])[Offset(jobs, i) + k] == Content(n, jobs[i])[k]
  {
    assert jobs[..m][..m - 1] == jobs[..m - 1];
    FilledLength(n, jobs, m - 1);
    if i < m - 1 { FilledAt(n, jobs, m - 1, i, k); }
  }

  /** Every place of the buffer belongs to an item. */
  lemma {:induction false} ItemAt(jobs: seq<Job>, m: nat, x: nat) returns (i: nat, k: nat)
    requires m <= |jobs| && x < Offset(jobs, m)
    ensures i < m && k < Size(jobs[i]) && Offset(jobs, i) + k == x
  {
    if x >= Offset(jobs, m - 1) {
      i, k := m - 1, x - Offset(jobs, m - 1);
    } else {
      i, k := ItemAt(jobs, m - 1, x);
    }
  }

  /**
   However the threads take turns, once the queue is empty and they are done the
   buffer holds every item in its slice, each computed by the thread that took
   it - unless an item failed, which is said, and only after the library refused one.
   */
  lemma AnySchedule(n: nat, jobs: seq<Job>, threads: nat, moves: seq<Move>)
    requires OrderOk(n) && JobsOk(n, jobs)
    ensures var p := Worked(n, jobs, StartPool(jobs, threads), moves);
      && (AllDone(jobs, p) && !p.failed ==> p.buffer == Filled(n, jobs))
      && (p.failed ==> SomeRefused(moves))
  {
    var p := Worked(n, jobs, StartPool(jobs, threads), moves);
    WorkedOk(n, jobs, threads, moves);
    FailedIfRefused(n, jobs, StartPool(jobs, threads), moves);
    if AllDone(jobs, p) && !p.failed {
      assert jobs[..|jobs|] == jobs;
      FilledLength(n, jobs, |jobs|);
      forall x | 0 <= x < |p.buffer| ensures p.buffer[x] == Filled(n, jobs)[x] {
        var i, k := ItemAt(jobs, |jobs|, x);
        assert Reached(n, jobs, p, i, k);
        FilledAt(n, jobs, |jobs|, i, k);
      }
    }
  }

  ghost predicate SomeRefused(moves: seq<Move>)
  {
    exists i :: 0 <= i < |moves| && moves[i].refused
  }

  lemma {:induction false} FailedIfRefused(n: nat, jobs: seq<Job>, p: Pool, moves: seq<Move>)
    requires n >= 1 && !p.failed
    ensures Worked(n, jobs, p, moves).failed ==> SomeRefused(moves)
  {
    if moves != [] {
      var was := moves[..|moves| - 1];
      FailedIfRefused(n, jobs, p, was);
      if Worked(n, jobs, p, was).failed {
        var i :| 0 <= i < |was| && was[i].refused;
        assert moves[i] == was[i];
      } else {
        assert Worked(n, jobs, p, moves).failed ==> moves[|moves| - 1].refused;
      }
    }
  }

  // ----- The work can always be finished -----

  lemma {:induction false} WorkedOn(n: nat, jobs: seq<Job>, p: Pool, a: seq<Move>, b: seq<Move>)
    requires n >= 1
    ensures Worked(n, jobs, p, a + b) == Worked(n, jobs, Worked(n, jobs, p, a), b)
  {
    if b == [] {
      assert a + b == a;
    } else {
      assert (a + b)[..|a + b| - 1] == a + b[..|b| - 1];
      WorkedOn(n, jobs, p, a, b[..|b| - 1]);
    }
  }

  lemma WorkedOnce(n: nat, jobs: seq<Job>, p: Pool, m: Move)
    requires n >= 1
    ensures Worked(n, jobs, p, [m]) == Step(n, jobs, p, m)
  {
    assert [m][..0] == [];
  }

  predicate AllWell(moves: seq<Move>)
  {
    forall i :: 0 <= i < |moves| ==> !moves[i].refused
  }

  /** From `p` unrefused moves lead to `p'`. */
  ghost predicate LeadsTo(n: nat, jobs: seq<Job>, p: Pool, p': Pool)
    requires n >= 1
  {
    exists moves :: AllWell(moves) && Worked(n, jobs, p, moves) == p'
  }

  lemma LedThere(n: nat, jobs: seq<Job>, p: Pool, m: Move, p': Pool)
    requires n >= 1 && !m.refused && LeadsTo(n, jobs, Step(n, jobs, p, m), p')
    ensures LeadsTo(n, jobs, p, p')
  {
    var moves :| AllWell(moves) && Worked(n, jobs, Step(n, jobs, p, m), moves) == p';
    WorkedOnce(n, jobs, p, m);
    WorkedOn(n, jobs, p, [m], moves);
    assert AllWell([m] + moves);
  }

  lemma Stays(n: nat, jobs: seq<Job>, p: Pool)
    requires n >= 1
    ensures LeadsTo(n, jobs, p, p)
  {
    var none: seq<Move> := [];
    assert AllWell(none) && Worked(n, jobs, p, none) == p;
  }

  lemma LedOn(n: nat, jobs: seq<Job>, p: Pool, q: Pool, r: Pool)
    requires n >= 1 && LeadsTo(n, jobs, p, q) && LeadsTo(n, jobs, q, r)
    ensures LeadsTo(n, jobs, p, r)
  {
    var a :| AllWell(a) && Worked(n, jobs, p, a) == q;
    var b :| AllWell(b) && Worked(n, jobs, q, b) == r;
    WorkedOn(n, jobs, p, a, b);
    assert AllWell(a + b);
  }

  /** A thread at work gets done with its item. */
  lemma {:induction false} GetsDone(n: nat, jobs: seq<Job>, p: Pool, t: nat) returns (p': Pool)
    requires n >= 1 && t < |p.threads|
    ensures LeadsTo(n, jobs, p, p') && p'.next == p.next && p'.failed == p.failed
    ensures p'.threads == p.threads[t := Idle]
    decreases if p.threads[t].Filling? && p.threads[t].item < |jobs| then Max(0, Size(jobs[p.threads[t].item]) - p.threads[t].done) else 0
  {
    var m := Move(t, false);
    var q := Step(n, jobs, p, m);
    if p.threads[t].Idle? {
      p' := p;
      Stays(n, jobs, p);
    } else if q.threads[t].Idle? {
      p' := q;
      Stays(n, jobs, q);
      LedThere(n, jobs, p, m, q);
    } else {
      p' := GetsDone(n, jobs, q, t);
      LedThere(n, jobs, p, m, p');
    }
  }

  predicate IdleFrom(p: Pool, t: nat)
  {
    forall u :: t <= u < |p.threads| ==> p.threads[u].Idle?
  }

  lemma AllGetDone(n: nat, jobs: seq<Job>, p: Pool) returns (p': Pool)
    requires n >= 1
    ensures LeadsTo(n, jobs, p, p') && p'.next == p.next && p'.failed == p.failed
    ensures |p'.threads| == |p.threads| && IdleFrom(p', 0)
  {
    p' := p;
    var t := |p.threads|;
    Stays(n, jobs, p);
    while t > 0
      invariant 0 <= t <= |p.threads| == |p'.threads| && IdleFrom(p', t)
      invariant LeadsTo(n, jobs, p, p') && p'.next == p.next && p'.failed == p.failed
    {
      t := t - 1;
      var q := GetsDone(n, jobs, p', t);
      LedOn(n, jobs, p, p', q);
      p' := q;
    }
  }

  /** With nobody at work one thread takes the rest of the queue, item by item. */
  lemma {:induction false} QueueEmpties(n: nat, jobs: seq<Job>, p: Pool) returns (p': Pool)
    requires n >= 1 && p.threads != [] && IdleFrom(p, 0) && p.next <= |jobs|
    ensures LeadsTo(n, jobs, p, p') && AllDone(jobs, p') && p'.failed == p.failed
    decreases |jobs| - p.next
  {
    if p.next == |jobs| {
      p' := p;
      Stays(n, jobs, p);
    } else {
      var m := Move(0, false);
      var taken := Step(n, jobs, p, m);
      var q := GetsDone(n, jobs, taken, 0);
      p' := QueueEmpties(n, jobs, q);
      LedOn(n, jobs, taken, q, p');
      LedThere(n, jobs, p, m, p');
    }
  }

  /** Whatever the threads have done so far, they can get done with all of it; no failure comes of that. */
  lemma CanFinish(n: nat, jobs: seq<Job>, threads: nat, moves: seq<Move>) returns (more: seq<Move>)
    requires OrderOk(n) && JobsOk(n, jobs) && threads >= 1
    ensures var start := StartPool(jobs, threads);
      && AllWell(more) && AllDone(jobs, Worked(n, jobs, start, moves + more))
      && (Worked(n, jobs, start, moves + more).failed <==> Worked(n, jobs, start, moves).failed)
  {
    var start := StartPool(jobs, threads);
    WorkedOk(n, jobs, threads, moves);
    ThreadsStay(n, jobs, start, moves);
    var p := Worked(n, jobs, start, moves);
    var q := AllGetDone(n, jobs, p);
    var r := QueueEmpties(n, jobs, q);
    LedOn(n, jobs, p, q, r);
    more :| AllWell(more) && Worked(n, jobs, p, more) == r;
    WorkedOn(n, jobs, start, moves, more);
  }

  lemma {:induction false} ThreadsStay(n: nat, jobs: seq<Job>, p: Pool, moves: seq<Move>)
    requires n >= 1
    ensures |Worked(n, jobs, p, moves).threads| == |p.threads|
  {
    if moves != [] { ThreadsStay(n, jobs, p, moves[..|moves| - 1]); }
  }

  // ----- The items of `gpu_tables` -----

  function CurveJobs(rows: seq<Row>, curve: nat): (jobs: seq<Job>)
    ensures |jobs| == |rows|
  {
    seq(|rows|, i requires 0 <= i < |rows| => RowOf(rows[i], curve))
  }

  /** The power tables, then the rows of `curves` curves, curve after curve. */
  function Jobs(power: seq<Place>, rows: seq<Row>, curves: nat): (jobs: seq<Job>)
  {
    if curves == 0 then [PowerPart(power)] else Jobs(power, rows, curves - 1) + CurveJobs(rows, curves - 1)
  }

  lemma {:induction false} JobCount(power: seq<Place>, rows: seq<Row>, curves: nat)
    ensures |Jobs(power, rows, curves)| == 1 + Steps(|rows|, curves)
  {
    if curves > 0 { JobCount(power, rows, curves - 1); }
  }

  /** Item m + 1 is row (m % rows) of curve (m / rows), as the threads work it out. */
  lemma {:induction false} JobAt(power: seq<Place>, rows: seq<Row>, curves: nat, c: nat, i: nat, m: nat)
    requires c < curves && i < |rows| && m == c * |rows| + i
    ensures m / |rows| == c && m % |rows| == i
    ensures 1 + m < |Jobs(power, rows, curves)| && Jobs(power, rows, curves)[1 + m] == RowOf(rows[i], c)
  {
    DivIs(m, |rows|, c, i);
    StepsAre(|rows|, c);
    JobIn(power, rows, curves, c, i);
  }

  lemma {:induction false} JobIn(power: seq<Place>, rows: seq<Row>, curves: nat, c: nat, i: nat)
    requires c < curves && i < |rows|
    ensures var at := 1 + Steps(|rows|, c) + i;
      at < |Jobs(power, rows, curves)| && Jobs(power, rows, curves)[at] == RowOf(rows[i], c)
  {
    JobCount(power, rows, curves - 1);
    if c < curves - 1 { JobIn(power, rows, curves - 1, c, i); }
  }

  lemma {:induction false} JobsFit(n: nat, power: seq<Place>, rows: seq<Row>, curves: nat)
    requires RowsFit(n, rows)
    ensures JobsOk(n, Jobs(power, rows, curves))
  {
    if curves > 0 { JobsFit(n, power, rows, curves - 1); }
  }

  lemma FilledSnoc(n: nat, jobs: seq<Job>, j: Job)
    requires n >= 1
    ensures Filled(n, jobs + [j]) == Filled(n, jobs) + Content(n, j)
  {
    assert (jobs + [j])[..|jobs|] == jobs;
  }

  lemma {:induction false} FilledConcat(n: nat, a: seq<Job>, b: seq<Job>)
    requires n >= 1
    ensures Filled(n, a + b) == Filled(n, a) + Filled(n, b)
  {
    if b == [] {
      assert a + b == a;
    } else {
      FilledConcat(n, a, b[..|b| - 1]);
      ConcatStep(n, a, b[..|b| - 1], b[|b| - 1], b, Filled(n, a), Filled(n, b[..|b| - 1]));
    }
  }

  lemma ConcatStep(n: nat, a: seq<Job>, was: seq<Job>, j: Job, b: seq<Job>, fa: seq<Place>, fw: seq<Place>)
    requires n >= 1 && b == was + [j] && Filled(n, a + was) == fa + fw && Filled(n, was) == fw
    ensures Filled(n, a + b) == fa + Filled(n, b)
  {
    var c := LastContent(n, a, was, j, b);
    Assoc(fa, fw, c);
  }

  lemma LastContent(n: nat, a: seq<Job>, was: seq<Job>, j: Job, b: seq<Job>) returns (c: seq<Place>)
    requires n >= 1 && b == was + [j]
    ensures Filled(n, a + b) == Filled(n, a + was) + c && Filled(n, b) == Filled(n, was) + c
  {
    JoinSnoc(a, was, j, b);
    FilledSnoc(n, a + was, j);
    FilledSnoc(n, was, j);
    c := Content(n, j);
  }

  lemma JoinSnoc(a: seq<Job>, was: seq<Job>, j: Job, b: seq<Job>)
    requires b == was + [j]
    ensures a + b == a + was + [j]
  {
  }

  lemma CurveJobsSnoc(rows: seq<Row>, curve: nat)
    requires rows != []
    ensures CurveJobs(rows, curve) == CurveJobs(rows[..|rows| - 1], curve) + [RowOf(rows[|rows| - 1], curve)]
  {
  }

  lemma {:induction false} CurveFilled(n: nat, rows: seq<Row>, curve: nat)
    requires n >= 1
    ensures Filled(n, CurveJobs(rows, curve)) == CurvePlaces(n, rows, curve)
  {
    if rows != [] {
      var was := rows[..|rows| - 1];
      CurveFilled(n, was, curve);
      CurveJobsSnoc(rows, curve);
      FilledSnoc(n, CurveJobs(was, curve), RowOf(rows[|rows| - 1], curve));
    }
  }

  lemma JobsAreTables(n: nat, power: seq<Place>, rows: seq<Row>, curves: nat)
    requires n >= 1
    ensures Filled(n, Jobs(power, rows, curves)) == power + AllPlaces(n, rows, curves)
  {
    var c := 0;
    OnlyPower(n, power, rows, c);
    while c < curves
      invariant c <= curves && Filled(n, Jobs(power, rows, c)) == power + AllPlaces(n, rows, c)
    {
      OneCurveMore(n, power, rows, c, c + 1);
      c := c + 1;
    }
  }

  lemma OneCurveMore(n: nat, power: seq<Place>, rows: seq<Row>, c: nat, d: nat)
    requires n >= 1 && d == c + 1 && Filled(n, Jobs(power, rows, c)) == power + AllPlaces(n, rows, c)
    ensures Filled(n, Jobs(power, rows, d)) == power + AllPlaces(n, rows, d)
  {
    CurveFilled(n, rows, c);
    var jobs, all, curve := Jobs(power, rows, c), AllPlaces(n, rows, c), CurvePlaces(n, rows, c);
    CurveAdded(n, jobs, CurveJobs(rows, c), power, all, curve, Jobs(power, rows, d), AllPlaces(n, rows, d));
  }

  lemma CurveAdded(n: nat, jobs: seq<Job>, more: seq<Job>, power: seq<Place>, all: seq<Place>, curve: seq<Place>,
                   jobs': seq<Job>, all': seq<Place>)
    requires n >= 1 && Filled(n, jobs) == power + all && Filled(n, more) == curve
    requires jobs' == jobs + more && all' == all + curve
    ensures Filled(n, jobs') == power + all'
  {
    FilledConcat(n, jobs, more);
    Assoc(power, all, curve);
  }

  lemma OnlyPower(n: nat, power: seq<Place>, rows: seq<Row>, c: nat)
    requires n >= 1 && c == 0
    ensures Filled(n, Jobs(power, rows, c)) == power + AllPlaces(n, rows, c)
  {
    JoinNone(PowerPart(power));
    FilledSnoc(n, [], PowerPart(power));
  }

  lemma JoinNone(j: Job)
    ensures [] + [j] == [j]
  {
  }

  /** The pool of `gpu_tables` after `moves`. */
  ghost function HostPool(n: nat, window: nat, power: seq<Place>, threads: nat, moves: seq<Move>): Pool
    requires n >= 1 && Rows(window).Some?
  {
    var jobs := Jobs(power, Rows(window).value, 4);
    Worked(n, jobs, StartPool(jobs, threads), moves)
  }

  /** All items taken and all threads done, which `gpu_tables` waits for. */
  ghost predicate HostDone(n: nat, window: nat, power: seq<Place>, threads: nat, moves: seq<Move>)
    requires n >= 1 && Rows(window).Some?
  {
    AllDone(Jobs(power, Rows(window).value, 4), HostPool(n, window, power, threads, moves))
  }

  /**
   What `gpu_tables` returns, on any number of threads in any order, once they
   are done: the power tables and the four curves; none for a window outside 2
   to 20, or if the library refused an item.
   */
  method GpuTables(n: nat, window: nat, power: seq<Place>, threads: nat, moves: seq<Move>) returns (finished: bool, tables: Option<seq<Place>>)
    requires OrderOk(n)
    ensures !(2 <= window <= 20) ==> finished && tables.None?
    ensures 2 <= window <= 20 ==> Rows(window).Some? && (finished <==> HostDone(n, window, power, threads, moves))
    ensures 2 <= window <= 20 ==> (tables.None? <==> HostPool(n, window, power, threads, moves).failed)
    ensures 2 <= window <= 20 && tables.None? ==> SomeRefused(moves)
    ensures finished && tables.Some? ==> Rows(window).Some? && tables.value == power + AllPlaces(n, Rows(window).value, 4)
  {
    if window < 2 || window > 20 { return true, None; }
    var rows := Rows(window).value;
    WindowRowsFit(n, window);
    var jobs := Jobs(power, rows, 4);
    var p := RunPool(n, jobs, threads, moves);
    PoolFills(n, power, rows, threads, moves);
    finished := AllDone(jobs, p);
    tables := if p.failed then None else Some(p.buffer);
  }

  lemma PoolFills(n: nat, power: seq<Place>, rows: seq<Row>, threads: nat, moves: seq<Move>)
    requires OrderOk(n) && RowsFit(n, rows)
    ensures var jobs := Jobs(power, rows, 4);
      var p := Worked(n, jobs, StartPool(jobs, threads), moves);
      && (AllDone(jobs, p) && !p.failed ==> p.buffer == power + AllPlaces(n, rows, 4))
      && (p.failed ==> SomeRefused(moves))
  {
    JobsFit(n, power, rows, 4);
    AnySchedule(n, Jobs(power, rows, 4), threads, moves);
    JobsAreTables(n, power, rows, 4);
  }

  method RunPool(n: nat, jobs: seq<Job>, threads: nat, moves: seq<Move>) returns (p: Pool)
    requires n >= 1
    ensures p == Worked(n, jobs, StartPool(jobs, threads), moves)
  {
    p := StartPool(jobs, threads);
    for i := 0 to |moves|
      invariant p == Worked(n, jobs, StartPool(jobs, threads), moves[..i])
    {
      assert moves[..i + 1][..i] == moves[..i];
      p := Step(n, jobs, p, moves[i]);
    }
    assert moves[..|moves|] == moves;
  }

  // ----- What they take -----

  lemma {:induction false} PlacesOfSnoc(rows: seq<Row>, row: Row)
    ensures PlacesOf(rows + [row]) == PlacesOf(rows) + row.places
  {
    if rows == [] {
      assert [row][1..] == [];
    } else {
      assert (rows + [row])[1..] == rows[1..] + [row];
      PlacesOfSnoc(rows[1..], row);
    }
  }

  lemma {:induction false} CurveTakes(n: nat, rows: seq<Row>, curve: nat)
    requires n >= 1
    ensures |CurvePlaces(n, rows, curve)| == PlacesOf(rows)
  {
    if rows != [] {
      var was, row := rows[..|rows| - 1], rows[|rows| - 1];
      CurveTakes(n, was, curve);
      assert rows == was + [row];
      PlacesOfSnoc(was, row);
    }
  }

  /** The memory a window is held to need is what its tables take: 8 numbers of 8 bytes a place, behind the power tables. */
  lemma TablesTake(n: nat, window: nat, power: seq<Place>)
    requires n >= 1 && Rows(window).Some? && |power| * 8 == POWER_TABLES_U64
    ensures |power + AllPlaces(n, Rows(window).value, 4)| * 8 * 8 == TableBytes(window)
  {
    var rows := Rows(window).value;
    CurveTakes(n, rows, 0);
    CurveTakes(n, rows, 1);
    CurveTakes(n, rows, 2);
    CurveTakes(n, rows, 3);
    assert |AllPlaces(n, rows, 1)| == PlacesOf(rows);
    assert |AllPlaces(n, rows, 2)| == 2 * PlacesOf(rows);
  }

  // ----- All alike -----

  /** The four curves one at a time (`curve_table`), behind the power tables. */
  method CurveByCurve(n: nat, w: nat, power: seq<Place>) returns (tables: seq<Place>)
    requires OrderOk(n) && 2 <= w <= 20
    ensures tables == power + AllPlaces(n, Rows(w).value, 4)
  {
    BuildersAgree(w);
    ghost var rows := Rows(w).value;
    tables := power;
    var size := CurveSize(w);
    for c := 0 to 4
      invariant tables == power + AllPlaces(n, rows, c)
    {
      var out := new Place[size](x => Zeros);
      CurveTable(n, w, c, out);
      Assoc(power, AllPlaces(n, rows, c), CurvePlaces(n, rows, c));
      tables := tables + out[..];
    }
  }

  method CurveSize(w: nat) returns (size: nat)
    requires w >= 1
    ensures size == Places(w, RowCount(w))
  {
    size := 0;
    for i := 0 to RowCount(w)
      invariant size == Places(w, i)
    {
      size := size + (Pow2(w) - 1);
    }
  }

  /**
   At every window the host has tables for, host, card and curve by curve give
   one and the same: every row of every curve as Tables.dfy has it, after the power tables.
   The host gives none only while its threads are at work or after the library
   refused an item.
   */
  method BuildEveryWay(n: nat, w: nat, power: seq<Place>, threads: nat, moves: seq<Move>)
    returns (host: Option<seq<Place>>, card: seq<Place>, curves: seq<Place>)
    requires OrderOk(n) && 2 <= w <= 20
    ensures Rows(w).Some? && card == power + AllPlaces(n, Rows(w).value, 4)
    ensures card == curves && (host.Some? ==> host.value == card)
    ensures HostDone(n, w, power, threads, moves) && !SomeRefused(moves) ==> host.Some?
  {
    curves := CurveByCurve(n, w, power);
    var rows := BuildRows(w);
    BuildersAgree(w);
    WindowRowsFit(n, w);
    var built := BuildTables(n, power, rows.value);
    card := built[..];
    var finished, tables := GpuTables(n, w, power, threads, moves);
    host := if finished then tables else None;
  }
}
