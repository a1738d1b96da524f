/**
 The backend's calls as they change its fields (src/backend/cuda.rs,
 src/backend/opencl.rs), and the self-test's queue of launches
 (src/backend/bc3.rs `queued_scans`).
 */
module RingBackend {
  import opened Machine
  import opened Ring

  class Backend {
    const kernel: Kernel
    const byReference: bool
    var slots: seq<Slot>
    var stream: seq<Command>
    var queued: seq<nat>
    var nextSlot: nat
    /** A call failed and `abandon` is due. */
    ghost var broken: bool
    /** The launches whose results are still to be collected. */
    ghost var flying: seq<Launch>

    ghost function View(): State
      reads this
    {
      State(byReference, slots, stream, queued, nextSlot, broken)
    }

    ghost predicate Valid()
      reads this
    {
      Shaped(View()) && (!broken ==> Sound(kernel, View(), flying))
    }

    constructor (kernel: Kernel, byReference: bool)
      ensures Valid() && !broken && flying == [] && this.kernel == kernel
      ensures View() == Init(byReference)
    {
      this.kernel, this.byReference := kernel, byReference;
      slots, stream, queued, nextSlot := [BLANK, BLANK], [], [], 0;
      broken, flying := false, [];
    }

    method PutHeader(i: nat, h: Header, fails: bool) returns (ok: bool)
      requires i < |slots|
      modifies this`slots, this`stream
      ensures (View(), ok) == Ring.PutHeader(old(View()), i, h, fails)
    {
      if slots[i].headerOf != Some(h) {
        slots := slots[i := slots[i].(headerOf := None)];
        if byReference { slots := slots[i := slots[i].(hostHeader := h)]; }
        assert stream + [] == stream && slots == old(slots)[i := slots[i]];
        if fails { return false; }
        stream := stream + [CopyHeader(i, if byReference then None else Some(h))];
        slots := slots[i := slots[i].(headerOf := Some(h))];
        assert slots == old(slots)[i := slots[i]];
      }
      return true;
    }

    method PutTarget(i: nat, t: Limbs, fails: bool) returns (ok: bool)
      requires i < |slots|
      modifies this`slots, this`stream
      ensures (View(), ok) == Ring.PutTarget(old(View()), i, t, fails)
    {
      if slots[i].targetOf != Some(t) {
        slots := slots[i := slots[i].(targetOf := None)];
        if byReference { slots := slots[i := slots[i].(hostTarget := t)]; }
        assert stream + [] == stream && slots == old(slots)[i := slots[i]];
        if fails { return false; }
        stream := stream + [CopyTarget(i, if byReference then None else Some(t))];
        slots := slots[i := slots[i].(targetOf := Some(t))];
        assert slots == old(slots)[i := slots[i]];
      }
      return true;
    }

    method ForgetSlot(i: nat)
      requires i < |slots|
      modifies this`slots, this`broken
      ensures View() == Fail(old(View()), i, true)
    {
      slots := slots[i := Forget(slots[i])];
      broken := true;
      assert stream + [] == stream;
    }

    method QueueScan(i: nat, l: Launch, fault: Fault) returns (ok: bool)
      requires i < |slots|
      modifies this`slots, this`stream, this`queued, this`nextSlot, this`broken
      ensures (View(), ok) == Ring.QueueScan(old(View()), i, l, fault)
    {
      ghost var was := stream;
      assert slots[i := slots[i]] == slots;
      if fault == AtZero { ForgetSlot(i); return false; }
      stream := stream + [ZeroHits(i)];
      if fault == AtScan { ForgetSlot(i); return false; }
      stream := stream + [Scan(i, l.start, l.count)];
      assert stream == was + [ZeroHits(i), Scan(i, l.start, l.count)];
      if fault != AtRead {
        stream := stream + [ReadHits(i)];
        assert stream == was + [ZeroHits(i), Scan(i, l.start, l.count), ReadHits(i)];
      }
      if fault == AtRead || fault == AtFlush {
        if byReference { ForgetSlot(i); }
        broken := true;
        return false;
      }
      queued := queued + [i];
      nextSlot := (i + 1) % QUEUE_DEPTH;
      return true;
    }

    method Enqueue(l: Launch, fault: Fault) returns (ok: bool)
      requires Valid() && !broken
      modifies this
      ensures Valid() && (!ok && !broken ==> View() == old(View()))
      ensures flying == old(flying) + if ok then [l] else []
      ensures ok ==> !broken && l.count != 0 && |old(flying)| < QUEUE_DEPTH
      ensures l.count != 0 && |old(flying)| < QUEUE_DEPTH && fault == NoFault ==> ok
    {
      ghost var was := View();
      ok := TryEnqueue(l, fault);
      if ok {
        EnqueueFills(was, l, fault);
        EnqueueKeeps(kernel, was, flying, l, fault);
        flying := flying + [l];
      } else {
        EnqueueFails(was, l, fault);
      }
    }

    method TryEnqueue(l: Launch, fault: Fault) returns (ok: bool)
      requires Shaped(View())
      modifies this`slots, this`stream, this`queued, this`nextSlot, this`broken
      ensures (View(), ok) == Ring.Enqueue(old(View()), l, fault)
    {
      if l.count == 0 { return false; }
      if |queued| >= QUEUE_DEPTH { return false; }
      var i := nextSlot;
      if fault == NotLoaded { ForgetSlot(i); return false; }
      ok := PutHeader(i, l.header, fault == AtHeader);
      if !ok { ForgetSlot(i); return; }
      ok := PutTarget(i, l.target, fault == AtTarget);
      if !ok { ForgetSlot(i); return; }
      ok := QueueScan(i, l, fault);
    }

    /** The device gets to its next command. */
    method Device()
      requires Valid()
      modifies this`slots, this`stream
      ensures Valid() && View() == DeviceStep(kernel, old(View()))
    {
      if !broken { DeviceKeeps(kernel, View(), flying); }
      if stream != [] {
        slots := Exec(kernel, slots, stream[0]);
        stream := stream[1..];
      }
    }

    /** The oldest launch's hits, from its own inputs; None: nothing in flight, or the wait failed. */
    method Collect(fails: bool) returns (hits: Option<Hits>)
      requires Valid() && !broken
      modifies this
      ensures Valid()
      ensures hits.Some? <==> old(flying) != [] && !fails
      ensures hits.Some? ==> hits.value == Result(kernel, old(flying)[0]) && !broken
      ensures flying == if old(flying) == [] then [] else old(flying)[1..]
    {
      if queued == [] { return None; }
      var i := queued[0];
      ghost var was := View();
      if fails {
        queued := queued[1..];
        broken := true;
        flying := flying[1..];
        return None;
      }
      AwaitKeeps(kernel, was, flying, i);
      CollectKeeps(kernel, was, flying);
      WaitFor(i);
      hits := Some(slots[i].hostHits);
      queued := queued[1..];
      flying := flying[1..];
    }

    /** The device works off its commands up to the readback of slot `i`. */
    method WaitFor(i: nat)
      modifies this`slots, this`stream
      ensures View() == Await(kernel, old(View()), i)
    {
      while ReadHits(i) in stream
        invariant Await(kernel, View(), i) == Await(kernel, old(View()), i)
        decreases |stream|
      {
        slots := Exec(kernel, slots, stream[0]);
        stream := stream[1..];
      }
    }

    method Abandon(ran: nat)
      requires Valid()
      modifies this
      ensures Valid() && !broken && flying == []
    {
      AbandonRecovers(kernel, View(), ran);
      ghost var was := View();
      RunsOn(ran);
      var now := slots;
      slots := seq(|now|, i requires 0 <= i < |now| => Forget(now[i]));
      stream, queued, flying, broken := [], [], [], false;
      assert View() == Ring.Abandon(kernel, was, ran);
    }

    /** The device does `ran` more of its commands. */
    method RunsOn(ran: nat)
      modifies this`slots, this`stream
      ensures View() == RunFor(kernel, old(View()), ran)
    {
      var n := ran;
      while n > 0
        invariant RunFor(kernel, View(), n) == RunFor(kernel, old(View()), ran)
      {
        if stream != [] {
          slots := Exec(kernel, slots, stream[0]);
          stream := stream[1..];
        }
        n := n - 1;
      }
    }
  }

  /** Launches up to `j` went to the backend, and those before `done` came back. */
  ghost predicate Between(b: Backend, launches: seq<Launch>, done: nat, j: nat)
    reads b
  {
    b.Valid() && !b.broken && done <= j <= |launches| && b.flying == launches[done..j] && |b.queued| == j - done
  }

  method CollectNext(b: Backend, launches: seq<Launch>, out: seq<Hits>, ghost j: nat, fails: bool) returns (r: Option<seq<Hits>>)
    requires Between(b, launches, |out|, j) && |out| < j && out == Results(b.kernel, launches[..|out|])
    modifies b
    ensures b.Valid() && (r.Some? <==> !fails)
    ensures r.Some? ==> |r.value| == |out| + 1 && r.value == Results(b.kernel, launches[..|r.value|]) && Between(b, launches, |r.value|, j)
  {
    var hits := b.Collect(fails);
    if hits.None? { return None; }
    ResultsSnoc(b.kernel, launches, |out|);
    return Some(out + [Sorted(hits.value)]);
  }

  method EnqueueNext(b: Backend, launches: seq<Launch>, ghost done: nat, j: nat, fault: Fault) returns (ok: bool)
    requires j < |launches| && Between(b, launches, done, j) && j < done + QUEUE_DEPTH
    modifies b
    ensures b.Valid() && (ok ==> Between(b, launches, done, j + 1))
    ensures launches[j].count != 0 && fault == NoFault ==> ok
  {
    ok := b.Enqueue(launches[j], fault);
    if ok { assert launches[done..j + 1] == launches[done..j] + [launches[j]]; }
  }

  /**
   The results of `launches` in their order, with the queue kept full;
   `fault`, `fails`: what goes wrong with the calls of launch j, if anything.
   */
  method QueuedScans(b: Backend, launches: seq<Launch>, fault: nat -> Fault, fails: nat -> bool) returns (scans: Option<seq<Hits>>)
    requires b.Valid() && !b.broken && b.flying == []
    modifies b
    ensures b.Valid()
    ensures scans.Some? ==> scans.value == Results(b.kernel, launches) && b.flying == [] && !b.broken
    ensures (forall j :: 0 <= j < |launches| ==> launches[j].count != 0 && fault(j) == NoFault && !fails(j)) ==> scans.Some?
  {
    var out: seq<Hits> := [];
    for j := 0 to |launches|
      invariant |out| <= j < |out| + QUEUE_DEPTH && Between(b, launches, |out|, j)
      invariant out == Results(b.kernel, launches[..|out|])
    {
      var ok := EnqueueNext(b, launches, |out|, j, fault(j));
      if !ok { return None; }
      if |b.queued| == QUEUE_DEPTH {
        var more := CollectNext(b, launches, out, j + 1, fails(|out|));
        if more.None? { return None; }
        out := more.value;
      }
    }
    while |b.queued| > 0
      invariant |out| <= |launches| && Between(b, launches, |out|, |launches|)
      invariant out == Results(b.kernel, launches[..|out|])
      decreases |launches| - |out|
    {
      var more := CollectNext(b, launches, out, |launches|, fails(|out|));
      if more.None? { return None; }
      out := more.value;
    }
    assert launches[..|out|] == launches;
    return Some(out);
  }

  /** What the launches find, each in rising order. */
  function Results(k: Kernel, launches: seq<Launch>): (r: seq<Hits>)
    ensures |r| == |launches|
  {
    if launches == [] then []
    else Results(k, launches[..|launches| - 1]) + [Sorted(Result(k, launches[|launches| - 1]))]
  }

  lemma ResultsSnoc(k: Kernel, launches: seq<Launch>, n: nat)
    requires n < |launches|
    ensures Results(k, launches[..n + 1]) == Results(k, launches[..n]) + [Sorted(Result(k, launches[n]))]
  {
    assert launches[..n + 1][..n] == launches[..n];
  }

  // ----- `sort_unstable` -----

  function Inserted(s: Hits, h: u32): Hits
  {
    if s == [] || h <= s[0] then [h] + s else [s[0]] + Inserted(s[1..], h)
  }

  function Sorted(s: Hits): Hits
  {
    if s == [] then [] else Inserted(Sorted(s[1..]), s[0])
  }

  predicate Rising(s: Hits)
  {
    forall i, j :: 0 <= i < j < |s| ==> s[i] <= s[j]
  }

  lemma {:induction false} InsertedHas(s: Hits, h: u32)
    ensures multiset(Inserted(s, h)) == multiset(s) + multiset{h}
  {
    if s != [] && h > s[0] {
      InsertedHas(s[1..], h);
      assert s == [s[0]] + s[1..];
    }
  }

  lemma RisingBehind(x: u32, t: Hits)
    requires Rising(t) && (t != [] ==> x <= t[0])
    ensures Rising([x] + t)
  {
    forall i, j | 0 <= i < j < |[x] + t| ensures ([x] + t)[i] <= ([x] + t)[j] {
      if i == 0 && j > 1 { assert t[0] <= t[j - 1]; }
    }
  }

  lemma {:induction false} InsertedRises(s: Hits, h: u32)
    requires Rising(s)
    ensures Rising(Inserted(s, h)) && Inserted(s, h) != [] && Inserted(s, h)[0] == if s != [] && s[0] < h then s[0] else h
  {
    if s == [] || h <= s[0] {
      RisingBehind(h, s);
    } else {
      InsertedRises(s[1..], h);
      RisingBehind(s[0], Inserted(s[1..], h));
    }
  }

  /** The same hits, in rising order. */
  lemma {:induction false} SortedIs(s: Hits)
    ensures Rising(Sorted(s)) && multiset(Sorted(s)) == multiset(s)
  {
    if s != [] {
      SortedIs(s[1..]);
      InsertedHas(Sorted(s[1..]), s[0]);
      InsertedRises(Sorted(s[1..]), s[0]);
      assert s == [s[0]] + s[1..];
    }
  }
}
