/**
 The launch ring of a GPU backend (src/backend/cuda.rs, src/backend/opencl.rs):
 two slots of device memory, a stream of queued commands the device works off
 in order and in its own time, and inputs that are copied only when they
 changed. OpenCL's copies read the slot's host memory when they run; CUDA's
 take the bytes when they are queued.
 */
module Ring {
  import opened Machine

  const QUEUE_DEPTH: nat := 2

  type Header = seq<u8>
  type Limbs = seq<u64>
  type Hits = seq<u32>

  /** What the kernel finds: any function of the inputs on the device and the range. */
  type Kernel = (Header, Limbs, u32, u32) -> Hits

  datatype Launch = Launch(header: Header, target: Limbs, start: u32, count: u32)

  function Result(k: Kernel, l: Launch): Hits
  {
    k(l.header, l.target, l.start, l.count)
  }

  datatype Slot = Slot(
    hostHeader: Header, hostTarget: Limbs, hostHits: Hits,      // host memory
    header: Header, target: Limbs, hits: Hits,                  // device memory
    headerOf: Option<Header>, targetOf: Option<Limbs>)          // what the device's inputs hold

  /** A queued command; a copy has its bytes where they were taken at once. */
  datatype Command =
    | CopyHeader(slot: nat, header: Option<Header>)
    | CopyTarget(slot: nat, target: Option<Limbs>)
    | ZeroHits(slot: nat)
    | Scan(slot: nat, start: u32, count: u32)
    | ReadHits(slot: nat)

  /** `byReference`: OpenCL. `broken`: a call failed and `abandon` is due. */
  datatype State = State(
    byReference: bool, slots: seq<Slot>, stream: seq<Command>, queued: seq<nat>, nextSlot: nat, broken: bool)

  /** Where an enqueue fails, if it does. */
  datatype Fault = NoFault | NotLoaded | AtHeader | AtTarget | AtZero | AtScan | AtRead | AtFlush

  const BLANK := Slot([], [], [], [], [], [], None, None)

  function Init(byReference: bool): State
  {
    State(byReference, [BLANK, BLANK], [], [], 0, false)
  }

  predicate Shaped(s: State)
  {
    |s.slots| == QUEUE_DEPTH && s.nextSlot < QUEUE_DEPTH
  }

  // ----- The device -----

  function Exec1(k: Kernel, s: Slot, c: Command): Slot
  {
    match c
    case CopyHeader(_, taken) => s.(header := if taken.Some? then taken.value else s.hostHeader)
    case CopyTarget(_, taken) => s.(target := if taken.Some? then taken.value else s.hostTarget)
    case ZeroHits(_) => s.(hits := [])
    case Scan(_, start, count) => s.(hits := s.hits + k(s.header, s.target, start, count))
    case ReadHits(_) => s.(hostHits := s.hits)
  }

  function Exec(k: Kernel, slots: seq<Slot>, c: Command): (r: seq<Slot>)
    ensures |r| == |slots|
  {
    if c.slot < |slots| then slots[c.slot := Exec1(k, slots[c.slot], c)] else slots
  }

  /** The slots once the device has worked off `stream`. */
  function Flush(k: Kernel, slots: seq<Slot>, stream: seq<Command>): (r: seq<Slot>)
    ensures |r| == |slots|
    decreases |stream|
  {
    if stream == [] then slots else Flush(k, Exec(k, slots, stream[0]), stream[1..])
  }

  function DeviceStep(k: Kernel, s: State): (s': State)
    ensures s' == s.(slots := s'.slots, stream := s'.stream) && |s'.slots| == |s.slots|
  {
    if s.stream == [] then s else s.(slots := Exec(k, s.slots, s.stream[0]), stream := s.stream[1..])
  }

  /** Wait for slot `i`'s readback: the device works off the stream up to it. */
  function Await(k: Kernel, s: State, i: nat): (s': State)
    ensures s' == s.(slots := s'.slots, stream := s'.stream) && |s'.slots| == |s.slots|
    decreases |s.stream|
  {
    if s.stream != [] && ReadHits(i) in s.stream then Await(k, DeviceStep(k, s), i) else s
  }

  function RunFor(k: Kernel, s: State, n: nat): (s': State)
    ensures s' == s.(slots := s'.slots, stream := s'.stream) && |s'.slots| == |s.slots|
    decreases n
  {
    if n == 0 then s else RunFor(k, DeviceStep(k, s), n - 1)
  }

  // ----- The calls -----

  function Forget(s: Slot): Slot
  {
    s.(headerOf := None, targetOf := None)
  }

  function With(s: State, i: nat, slot: Slot, commands: seq<Command>): State
    requires i < |s.slots|
  {
    s.(slots := s.slots[i := slot], stream := s.stream + commands)
  }

  /** The header's copy, if slot `i` does not hold it; false: the copy failed. */
  function PutHeader(s: State, i: nat, h: Header, fails: bool): (r: (State, bool))
    requires i < |s.slots|
    ensures |r.0.slots| == |s.slots| && r.0.nextSlot == s.nextSlot
  {
    var slot := s.slots[i];
    if slot.headerOf == Some(h) then (s, true) else
    var filled := if s.byReference then slot.(hostHeader := h) else slot;
    if fails then (With(s, i, filled.(headerOf := None), []), false)
    else (With(s, i, filled.(headerOf := Some(h)), [CopyHeader(i, if s.byReference then None else Some(h))]), true)
  }

  function PutTarget(s: State, i: nat, t: Limbs, fails: bool): (r: (State, bool))
    requires i < |s.slots|
    ensures |r.0.slots| == |s.slots| && r.0.nextSlot == s.nextSlot
  {
    var slot := s.slots[i];
    if slot.targetOf == Some(t) then (s, true) else
    var filled := if s.byReference then slot.(hostTarget := t) else slot;
    if fails then (With(s, i, filled.(targetOf := None), []), false)
    else (With(s, i, filled.(targetOf := Some(t)), [CopyTarget(i, if s.byReference then None else Some(t))]), true)
  }

  /** A failed enqueue: OpenCL forgets the slot's inputs, CUDA unless only the readback failed. */
  function Fail(s: State, i: nat, forget: bool): (s': State)
    requires i < |s.slots|
    ensures |s'.slots| == |s.slots| && s'.nextSlot == s.nextSlot
  {
    (if forget then With(s, i, Forget(s.slots[i]), []) else s).(broken := true)
  }

  /** The zeroed hit count, the kernel and the readback, once the inputs are queued. */
  function QueueScan(s: State, i: nat, l: Launch, fault: Fault): (r: (State, bool))
    requires i < |s.slots|
    ensures |r.0.slots| == |s.slots| && (r.0.nextSlot == s.nextSlot || r.0.nextSlot < QUEUE_DEPTH)
  {
    var slot := s.slots[i];
    match fault
    case AtZero => (Fail(s, i, true), false)
    case AtScan => (Fail(With(s, i, slot, [ZeroHits(i)]), i, true), false)
    case AtRead => (Fail(With(s, i, slot, [ZeroHits(i), Scan(i, l.start, l.count)]), i, s.byReference), false)
    case AtFlush => (Fail(With(s, i, slot, [ZeroHits(i), Scan(i, l.start, l.count), ReadHits(i)]), i, s.byReference), false)
    case _ =>
      (With(s, i, slot, [ZeroHits(i), Scan(i, l.start, l.count), ReadHits(i)])
       .(queued := s.queued + [i], nextSlot := (i + 1) % QUEUE_DEPTH), true)
  }

  /** `enqueue`; the second part: whether it succeeded. */
  function Enqueue(s: State, l: Launch, fault: Fault): (r: (State, bool))
    requires Shaped(s)
    ensures Shaped(r.0)
  {
    var i := s.nextSlot;
    if l.count == 0 || |s.queued| >= QUEUE_DEPTH then (s, false)
    else if fault == NotLoaded then (Fail(s, i, true), false) else
    var (s1, ok1) := PutHeader(s, i, l.header, fault == AtHeader);
    if !ok1 then (Fail(s1, i, true), false) else
    var (s2, ok2) := PutTarget(s1, i, l.target, fault == AtTarget);
    if !ok2 then (Fail(s2, i, true), false) else
    QueueScan(s2, i, l, fault)
  }

  /** `collect`: the oldest launch's hits. */
  function Collect(k: Kernel, s: State, fails: bool): (State, Option<Hits>)
  {
    if s.queued == [] then (s, None) else
    var i := s.queued[0];
    if fails then (s.(queued := s.queued[1..], broken := true), None) else
    var s' := Await(k, s, i).(queued := s.queued[1..]);
    (s', if i < |s'.slots| then Some(s'.slots[i].hostHits) else None)
  }

  /** `abandon`: the device works off the stream, or `ran` commands of it and then it is gone. */
  function Abandon(k: Kernel, s: State, ran: nat): State
  {
    var s' := RunFor(k, s, ran);
    s'.(slots := seq(|s'.slots|, i requires 0 <= i < |s'.slots| => Forget(s'.slots[i])), stream := [], queued := [], broken := false)
  }

  // ----- Runs, and the plain queue they refine -----

  datatype Call =
    | CallEnqueue(l: Launch, fault: Fault)
    | CallCollect(fails: bool)
    | CallAbandon(ran: nat)
    | Device

  /** After a failure the callers abandon first. */
  predicate Allowed(s: State, c: Call)
  {
    s.broken ==> c.Device? || c.CallAbandon?
  }

  /** The ring with what it returned so far. */
  datatype Ran = Ran(ring: State, collected: seq<Hits>)

  function Next(k: Kernel, r: Ran, c: Call): (r': Ran)
    requires Shaped(r.ring)
    ensures Shaped(r'.ring)
  {
    match c
    case CallEnqueue(l, fault) => r.(ring := Enqueue(r.ring, l, fault).0)
    case CallCollect(fails) =>
      var (s, hits) := Collect(k, r.ring, fails);
      Ran(s, if hits.Some? then r.collected + [hits.value] else r.collected)
    case CallAbandon(ran) => r.(ring := Abandon(k, r.ring, ran))
    case Device => r.(ring := DeviceStep(k, r.ring))
  }

  /** The reference: launches in order, each computed from its own inputs when it is collected. */
  datatype Fifo = Fifo(flying: seq<Launch>, collected: seq<Hits>)

  /** `ok`: the call succeeded. */
  function FifoNext(k: Kernel, f: Fifo, c: Call, ok: bool): Fifo
  {
    match c
    case CallEnqueue(l, _) => if ok then f.(flying := f.flying + [l]) else f
    case CallCollect(_) =>
      if f.flying == [] then f
      else Fifo(f.flying[1..], if ok then f.collected + [Result(k, f.flying[0])] else f.collected)
    case CallAbandon(_) => f.(flying := [])
    case Device => f
  }

  predicate Succeeds(r: Ran, c: Call)
    requires Shaped(r.ring)
  {
    match c
    case CallEnqueue(l, fault) => Enqueue(r.ring, l, fault).1
    case CallCollect(fails) => r.ring.queued != [] && !fails
    case _ => true
  }

  // ----- What the stream will have done -----

  predicate NoneOf(stream: seq<Command>, i: nat)
  {
    forall c :: c in stream ==> c.slot != i
  }

  predicate AllOf(stream: seq<Command>, i: nat)
  {
    forall c :: c in stream ==> c.slot == i
  }

  lemma {:induction false} FlushAppend(k: Kernel, slots: seq<Slot>, a: seq<Command>, b: seq<Command>)
    ensures Flush(k, slots, a + b) == Flush(k, Flush(k, slots, a), b)
    decreases |a|
  {
    if a == [] {
      assert a + b == b;
    } else {
      assert (a + b)[1..] == a[1..] + b;
      FlushAppend(k, Exec(k, slots, a[0]), a[1..], b);
    }
  }

  /** A slot no pending command is of stays as it is, and may change without changing the others. */
  lemma {:induction false} FlushElsewhere(k: Kernel, slots: seq<Slot>, stream: seq<Command>, i: nat, x: Slot)
    requires i < |slots| && NoneOf(stream, i)
    ensures Flush(k, slots, stream)[i] == slots[i]
    ensures Flush(k, slots[i := x], stream) == Flush(k, slots, stream)[i := x]
    decreases |stream|
  {
    if stream != [] {
      var c := stream[0];
      assert c in stream;
      assert forall d :: d in stream[1..] ==> d in stream;
      assert Exec(k, slots[i := x], c) == Exec(k, slots, c)[i := x];
      FlushElsewhere(k, Exec(k, slots, c), stream[1..], i, x);
    }
  }

  function Fold(k: Kernel, s: Slot, cs: seq<Command>): Slot
    decreases |cs|
  {
    if cs == [] then s else Fold(k, Exec1(k, s, cs[0]), cs[1..])
  }

  lemma {:induction false} FlushGroup(k: Kernel, slots: seq<Slot>, g: seq<Command>, i: nat)
    requires i < |slots| && AllOf(g, i)
    ensures Flush(k, slots, g) == slots[i := Fold(k, slots[i], g)]
    decreases |g|
  {
    if g != [] {
      assert g[0] in g;
      assert forall d :: d in g[1..] ==> d in g;
      FlushGroup(k, Exec(k, slots, g[0]), g[1..], i);
    }
  }

  /** Every command is followed by its slot's readback, which is the last of that slot. */
  predicate Closed(stream: seq<Command>)
  {
    stream == [] ||
    (&& ReadHits(stream[0].slot) in stream
     && (stream[0].ReadHits? ==> NoneOf(stream[1..], stream[0].slot))
     && Closed(stream[1..]))
  }

  lemma {:induction false} ReadIsLast(stream: seq<Command>, i: nat)
    requires Closed(stream) && ReadHits(i) !in stream
    ensures NoneOf(stream, i)
  {
    if stream != [] {
      assert forall c :: c in stream[1..] ==> c in stream;
      ReadIsLast(stream[1..], i);
      assert forall c :: c in stream ==> c == stream[0] || c in stream[1..];
    }
  }

  lemma {:induction false} ClosedAppend(a: seq<Command>, b: seq<Command>, i: nat)
    requires Closed(a) && Closed(b) && NoneOf(a, i) && AllOf(b, i)
    ensures Closed(a + b)
  {
    if a == [] {
      assert a + b == b;
    } else {
      assert a[0] in a;
      assert (a + b)[1..] == a[1..] + b;
      assert forall c :: c in a[1..] ==> c in a;
      ClosedAppend(a[1..], b, i);
      if a[0].ReadHits? {
        forall c | c in (a + b)[1..] ensures c.slot != a[0].slot {
          assert c in a[1..] || c in b;
        }
      }
    }
  }

  // ----- What every call keeps -----

  /** No slot is in flight twice, and the next one is free unless both are taken. */
  predicate QueueOk(queued: seq<nat>, next: nat)
  {
    || queued == []
    || queued == [1 - next]
    || queued == [next, 1 - next]
  }

  /** The cache tells the truth. */
  predicate CacheOk(s: Slot)
  {
    && (s.headerOf.Some? ==> s.header == s.headerOf.value)
    && (s.targetOf.Some? ==> s.target == s.targetOf.value)
  }

  ghost predicate Sound(k: Kernel, s: State, flying: seq<Launch>)
  {
    && Shaped(s) && s.nextSlot <= 1 && QueueOk(s.queued, s.nextSlot) && |flying| == |s.queued|
    && Closed(s.stream) && (forall c :: c in s.stream ==> c.slot in s.queued)
    && var end := Flush(k, s.slots, s.stream); Lands(k, end, s.queued, flying) && Caches(end)
  }

  lemma DeviceKeeps(k: Kernel, s: State, flying: seq<Launch>)
    requires Sound(k, s, flying)
    ensures Sound(k, DeviceStep(k, s), flying)
  {
    if s.stream != [] { assert forall c :: c in s.stream[1..] ==> c in s.stream; }
  }

  lemma {:induction false} AwaitKeeps(k: Kernel, s: State, flying: seq<Launch>, i: nat)
    requires Sound(k, s, flying)
    ensures var s' := Await(k, s, i);
      && Sound(k, s', flying) && ReadHits(i) !in s'.stream
      && s'.queued == s.queued && s'.nextSlot == s.nextSlot && s'.broken == s.broken
    decreases |s.stream|
  {
    if ReadHits(i) in s.stream {
      DeviceKeeps(k, s, flying);
      AwaitKeeps(k, DeviceStep(k, s), flying, i);
    }
  }

  /** `collect` returns what the oldest launch computes from its own inputs. */
  lemma CollectKeeps(k: Kernel, s: State, flying: seq<Launch>)
    requires Sound(k, s, flying) && flying != []
    ensures var (s', hits) := Collect(k, s, false);
      Sound(k, s', flying[1..]) && hits == Some(Result(k, flying[0])) && s'.broken == s.broken
  {
    var i := s.queued[0];
    AwaitKeeps(k, s, flying, i);
    var t := Await(k, s, i);
    ReadIsLast(t.stream, i);
    FlushElsewhere(k, t.slots, t.stream, i, t.slots[i]);
    var s' := Collect(k, s, false).0;
    assert s' == t.(queued := t.queued[1..]);
    forall c | c in s'.stream ensures c.slot in s'.queued {
      assert c.slot in t.queued && c.slot != i;
    }
    var end := Flush(k, s'.slots, s'.stream);
    forall j | 0 <= j < |flying[1..]| ensures s'.queued[j] < |end| && end[s'.queued[j]].hostHits == Result(k, flying[1..][j]) {
      assert s'.queued[j] == t.queued[j + 1] && flying[1..][j] == flying[j + 1];
    }
    assert Lands(k, end, s'.queued, flying[1..]);
  }

  /** Slot `x` with a header in it, and the copy if there is one. */
  function FillHeader(x: Slot, byReference: bool, i: nat, h: Header): (Slot, seq<Command>)
  {
    if x.headerOf == Some(h) then (x, [])
    else ((if byReference then x.(hostHeader := h) else x).(headerOf := Some(h)),
          [CopyHeader(i, if byReference then None else Some(h))])
  }

  function FillTarget(x: Slot, byReference: bool, i: nat, t: Limbs): (Slot, seq<Command>)
  {
    if x.targetOf == Some(t) then (x, [])
    else ((if byReference then x.(hostTarget := t) else x).(targetOf := Some(t)),
          [CopyTarget(i, if byReference then None else Some(t))])
  }

  /** Slot `i` with a launch's inputs in it, and the launch's commands. */
  function Filled(s: State, i: nat, l: Launch): (Slot, seq<Command>)
    requires i < |s.slots|
  {
    var (y, g) := FillHeader(s.slots[i], s.byReference, i, l.header);
    var (z, h) := FillTarget(y, s.byReference, i, l.target);
    (z, g + h + [ZeroHits(i), Scan(i, l.start, l.count), ReadHits(i)])
  }

  lemma PutHeaderFills(s: State, i: nat, h: Header, fails: bool)
    requires i < |s.slots| && PutHeader(s, i, h, fails).1
    ensures var (y, g) := FillHeader(s.slots[i], s.byReference, i, h); PutHeader(s, i, h, fails).0 == With(s, i, y, g)
  {
    assert s.slots[i := s.slots[i]] == s.slots && s.stream + [] == s.stream;
  }

  lemma PutTargetFills(s: State, i: nat, t: Limbs, fails: bool)
    requires i < |s.slots| && PutTarget(s, i, t, fails).1
    ensures var (y, g) := FillTarget(s.slots[i], s.byReference, i, t); PutTarget(s, i, t, fails).0 == With(s, i, y, g)
  {
    assert s.slots[i := s.slots[i]] == s.slots && s.stream + [] == s.stream;
  }

  lemma WithWith(s: State, i: nat, x: Slot, a: seq<Command>, y: Slot, b: seq<Command>)
    requires i < |s.slots|
    ensures With(With(s, i, x, a), i, y, b) == With(s, i, y, a + b)
  {
    assert s.slots[i := x][i := y] == s.slots[i := y] && s.stream + a + b == s.stream + (a + b);
  }

  lemma EnqueueFills(s: State, l: Launch, fault: Fault)
    requires Shaped(s) && Enqueue(s, l, fault).1
    ensures var i := s.nextSlot;
      && l.count != 0 && |s.queued| < QUEUE_DEPTH
      && Enqueue(s, l, fault).0
         == With(s, i, Filled(s, i, l).0, Filled(s, i, l).1).(queued := s.queued + [i], nextSlot := (i + 1) % QUEUE_DEPTH)
  {
    var i := s.nextSlot;
    var (y, g) := FillHeader(s.slots[i], s.byReference, i, l.header);
    var (z, h) := FillTarget(y, s.byReference, i, l.target);
    PutHeaderFills(s, i, l.header, fault == AtHeader);
    var s1 := PutHeader(s, i, l.header, fault == AtHeader).0;
    PutTargetFills(s1, i, l.target, fault == AtTarget);
    WithWith(s, i, y, g, z, h);
    WithWith(s, i, z, g + h, z, [ZeroHits(i), Scan(i, l.start, l.count), ReadHits(i)]);
  }

  /** The commands of a launch, run on a slot whose cache is right: its own result, and the cache right again. */
  lemma FilledRuns(k: Kernel, s: State, i: nat, l: Launch)
    requires i < |s.slots| && CacheOk(s.slots[i])
    ensures var (x, g) := Filled(s, i, l);
      AllOf(g, i) && Closed(g) && CacheOk(Fold(k, x, g)) && Fold(k, x, g).hostHits == Result(k, l)
  {
    var (x, g) := Filled(s, i, l);
    var n := |g| - 3;
    assert g[n..] == [ZeroHits(i), Scan(i, l.start, l.count), ReadHits(i)];
    var y := Fold(k, x, g[..n]);
    if n == 0 {
      assert g[..n] == [];
    } else if n == 1 {
      assert g[..n] == [g[0]];
      FoldOne(k, x, g[0]);
    } else {
      assert g[..n] == [g[0], g[1]];
      FoldTwo(k, x, g[0], g[1]);
    }
    FoldAppend(k, x, g[..n], g[n..]);
    assert g == g[..n] + g[n..];
    TailRuns(k, y, i, l);
    ClosedGroup(g, i);
  }

  lemma FoldOne(k: Kernel, x: Slot, c: Command)
    ensures Fold(k, x, [c]) == Exec1(k, x, c)
  {
    assert [c][1..] == [];
  }

  lemma FoldTwo(k: Kernel, x: Slot, c: Command, d: Command)
    ensures Fold(k, x, [c, d]) == Exec1(k, Exec1(k, x, c), d)
  {
    assert [c, d][1..] == [d];
    FoldOne(k, Exec1(k, x, c), d);
  }

  lemma TailRuns(k: Kernel, y: Slot, i: nat, l: Launch)
    requires y.header == l.header && y.target == l.target
    ensures Fold(k, y, [ZeroHits(i), Scan(i, l.start, l.count), ReadHits(i)])
         == y.(hits := Result(k, l), hostHits := Result(k, l))
  {
    var a, b, c := ZeroHits(i), Scan(i, l.start, l.count), ReadHits(i);
    assert [a, b, c][1..] == [b, c] && [b, c][1..] == [c] && [c][1..] == [];
    var y1 := Exec1(k, y, a);
    var y2 := Exec1(k, y1, b);
    assert y2.hits == Result(k, l);
    assert Fold(k, y2, [c]) == Exec1(k, y2, c);
    assert Fold(k, y1, [b, c]) == Fold(k, y2, [c]);
  }

  lemma {:induction false} FoldAppend(k: Kernel, x: Slot, a: seq<Command>, b: seq<Command>)
    ensures Fold(k, x, a + b) == Fold(k, Fold(k, x, a), b)
    decreases |a|
  {
    if a == [] {
      assert a + b == b;
    } else {
      assert (a + b)[1..] == a[1..] + b;
      FoldAppend(k, Exec1(k, x, a[0]), a[1..], b);
    }
  }

  lemma {:induction false} ClosedGroup(g: seq<Command>, i: nat)
    requires AllOf(g, i) && g != [] && g[|g| - 1] == ReadHits(i)
    requires forall j :: 0 <= j < |g| - 1 ==> !g[j].ReadHits?
    ensures Closed(g)
  {
    assert g[0] in g;
    if |g| > 1 {
      assert forall c :: c in g[1..] ==> c in g;
      ClosedGroup(g[1..], i);
    }
  }

  /** The slot an enqueue fills has no copy pending from its host memory, nor anything else. */
  lemma HostMemoryFree(k: Kernel, s: State, flying: seq<Launch>)
    requires Sound(k, s, flying) && |s.queued| < QUEUE_DEPTH
    ensures NoneOf(s.stream, s.nextSlot) && s.nextSlot !in s.queued
  {
  }

  /** The slots after the stream with a launch behind it: the launch's own slot changed, no other. */
  lemma EnqueuedEnd(k: Kernel, s: State, i: nat, l: Launch)
    requires i < |s.slots| && NoneOf(s.stream, i) && Closed(s.stream) && CacheOk(s.slots[i])
    ensures var (x, g) := Filled(s, i, l);
      && Flush(k, s.slots[i := x], s.stream + g) == Flush(k, s.slots, s.stream)[i := Fold(k, x, g)]
      && Closed(s.stream + g)
  {
    var (x, g) := Filled(s, i, l);
    FlushElsewhere(k, s.slots, s.stream, i, x);
    FilledRuns(k, s, i, l);
    FlushAppend(k, s.slots[i := x], s.stream, g);
    FlushGroup(k, Flush(k, s.slots, s.stream)[i := x], g, i);
    ClosedAppend(s.stream, g, i);
  }

  lemma EnqueueKeeps(k: Kernel, s: State, flying: seq<Launch>, l: Launch, fault: Fault)
    requires Sound(k, s, flying) && Enqueue(s, l, fault).1
    ensures Sound(k, Enqueue(s, l, fault).0, flying + [l]) && Enqueue(s, l, fault).0.broken == s.broken
  {
    var i := s.nextSlot;
    EnqueueFills(s, l, fault);
    HostMemoryFree(k, s, flying);
    FlushElsewhere(k, s.slots, s.stream, i, s.slots[i]);
    var (x, g) := Filled(s, i, l);
    FilledRuns(k, s, i, l);
    EnqueuedEnd(k, s, i, l);
    BehindKeeps(k, s, flying, l, i, x, g);
  }

  ghost predicate CopiesHeader(commands: seq<Command>) { exists c :: c in commands && c.CopyHeader? }
  ghost predicate CopiesTarget(commands: seq<Command>) { exists c :: c in commands && c.CopyTarget? }

  /** What an enqueue adds to the stream, and what the slots hold after it. */
  ghost predicate CopiesWhatChanged(s: State, l: Launch, s': State)
    requires Shaped(s) && Shaped(s')
  {
    var i := s.nextSlot;
    && s.stream <= s'.stream
    && (CopiesHeader(s'.stream[|s.stream|..]) <==> s.slots[i].headerOf != Some(l.header))
    && (CopiesTarget(s'.stream[|s.stream|..]) <==> s.slots[i].targetOf != Some(l.target))
    && s'.slots[i].headerOf == Some(l.header) && s'.slots[i].targetOf == Some(l.target)
    && s'.slots[1 - i] == s.slots[1 - i] && s'.nextSlot == 1 - i
  }

  /** The header and the target are copied exactly when the slot does not hold them, which it then does; the other slot keeps what it has. */
  lemma CopiesOnlyWhatChanged(s: State, l: Launch)
    requires Shaped(s) && Enqueue(s, l, NoFault).1
    ensures CopiesWhatChanged(s, l, Enqueue(s, l, NoFault).0)
  {
    EnqueueFills(s, l, NoFault);
    var i := s.nextSlot;
    var (x, g) := Filled(s, i, l);
    FilledCopies(s, i, l);
    WithChanges(s, i, l, x, g, With(s, i, x, g).(queued := s.queued + [i], nextSlot := (i + 1) % QUEUE_DEPTH));
  }

  lemma WithChanges(s: State, i: nat, l: Launch, x: Slot, g: seq<Command>, s': State)
    requires Shaped(s) && i == s.nextSlot && s' == With(s, i, x, g).(queued := s.queued + [i], nextSlot := (i + 1) % QUEUE_DEPTH)
    requires CopiesHeader(g) <==> s.slots[i].headerOf != Some(l.header)
    requires CopiesTarget(g) <==> s.slots[i].targetOf != Some(l.target)
    requires x.headerOf == Some(l.header) && x.targetOf == Some(l.target)
    ensures Shaped(s') && CopiesWhatChanged(s, l, s')
  {
    assert s'.stream[|s.stream|..] == g;
  }

  lemma FilledCopies(s: State, i: nat, l: Launch)
    requires i < |s.slots|
    ensures var (x, g) := Filled(s, i, l);
      && (CopiesHeader(g) <==> s.slots[i].headerOf != Some(l.header))
      && (CopiesTarget(g) <==> s.slots[i].targetOf != Some(l.target))
      && x.headerOf == Some(l.header) && x.targetOf == Some(l.target)
  {
    var (y, h) := FillHeader(s.slots[i], s.byReference, i, l.header);
    var (z, t) := FillTarget(y, s.byReference, i, l.target);
    var scan := [ZeroHits(i), Scan(i, l.start, l.count), ReadHits(i)];
    var g := h + t + scan;
    assert forall c :: c in g <==> c in h || c in t || c in scan;
    if h != [] { assert h[0] in g; }
    if t != [] { assert t[0] in g; }
  }

  lemma BehindKeeps(k: Kernel, s: State, flying: seq<Launch>, l: Launch, i: nat, x: Slot, g: seq<Command>)
    requires Sound(k, s, flying) && i == s.nextSlot && |s.queued| < QUEUE_DEPTH && i !in s.queued && AllOf(g, i)
    requires Closed(s.stream + g) && CacheOk(Fold(k, x, g)) && Fold(k, x, g).hostHits == Result(k, l)
    requires Flush(k, s.slots[i := x], s.stream + g) == Flush(k, s.slots, s.stream)[i := Fold(k, x, g)]
    ensures Sound(k, With(s, i, x, g).(queued := s.queued + [i], nextSlot := (i + 1) % QUEUE_DEPTH), flying + [l])
  {
    QueueGrows(s.queued, i);
    SlotsQueued(s.stream, g, s.queued, i);
    LandsBehind(k, Flush(k, s.slots, s.stream), s.queued, flying, i, Fold(k, x, g), l);
    CachesBehind(Flush(k, s.slots, s.stream), i, Fold(k, x, g));
  }

  /** Every launch's result is where it will be read. */
  ghost predicate Lands(k: Kernel, end: seq<Slot>, queued: seq<nat>, flying: seq<Launch>)
  {
    |flying| == |queued| && forall j :: 0 <= j < |flying| ==> queued[j] < |end| && end[queued[j]].hostHits == Result(k, flying[j])
  }

  ghost predicate Caches(end: seq<Slot>)
  {
    forall i :: 0 <= i < |end| ==> CacheOk(end[i])
  }

  lemma LandsBehind(k: Kernel, end: seq<Slot>, queued: seq<nat>, flying: seq<Launch>, i: nat, y: Slot, l: Launch)
    requires Lands(k, end, queued, flying) && i < |end| && i !in queued && y.hostHits == Result(k, l)
    ensures Lands(k, end[i := y], queued + [i], flying + [l])
  {
    forall j | 0 <= j < |flying + [l]|
      ensures (queued + [i])[j] < |end| && end[i := y][(queued + [i])[j]].hostHits == Result(k, (flying + [l])[j])
    {
      if j < |flying| { assert (queued + [i])[j] == queued[j] && queued[j] in queued; }
    }
  }

  lemma CachesBehind(end: seq<Slot>, i: nat, y: Slot)
    requires Caches(end) && i < |end| && CacheOk(y)
    ensures Caches(end[i := y])
  {
  }

  lemma QueueGrows(queued: seq<nat>, i: nat)
    requires i < QUEUE_DEPTH && QueueOk(queued, i) && |queued| < QUEUE_DEPTH
    ensures QueueOk(queued + [i], (i + 1) % QUEUE_DEPTH) && (i + 1) % QUEUE_DEPTH == 1 - i
  {
  }

  lemma SlotsQueued(stream: seq<Command>, g: seq<Command>, queued: seq<nat>, i: nat)
    requires AllOf(g, i) && forall c :: c in stream ==> c.slot in queued
    ensures forall c :: c in stream + g ==> c.slot in queued + [i]
  {
    forall c | c in stream + g ensures c.slot in queued + [i] {
      assert (queued + [i])[|queued|] == i;
      assert c in stream || c in g;
    }
  }

  // ----- Failures, and every run -----

  /** Whatever state a failure left behind, `abandon` leaves a sound ring with nothing in flight. */
  lemma AbandonRecovers(k: Kernel, s: State, ran: nat)
    requires Shaped(s)
    ensures Sound(k, Abandon(k, s, ran), []) && !Abandon(k, s, ran).broken
  {
  }

  /** A failed enqueue is refused untouched, or breaks the ring. */
  lemma EnqueueFails(s: State, l: Launch, fault: Fault)
    requires Shaped(s) && !Enqueue(s, l, fault).1
    ensures var s' := Enqueue(s, l, fault).0;
      Shaped(s') && (s' == s || s'.broken)
      && (s' == s && !s.broken <==> (l.count == 0 || |s.queued| >= QUEUE_DEPTH) && !s.broken)
  {
  }

  ghost predicate Refines(k: Kernel, r: Ran, f: Fifo)
  {
    && r.collected == f.collected
    && Shaped(r.ring)
    && (!r.ring.broken ==> Sound(k, r.ring, f.flying))
  }

  lemma StepRefines(k: Kernel, r: Ran, f: Fifo, c: Call)
    requires Refines(k, r, f) && Allowed(r.ring, c)
    ensures Refines(k, Next(k, r, c), FifoNext(k, f, c, Succeeds(r, c)))
  {
    match c
    case CallEnqueue(l, fault) =>
      if Succeeds(r, c) { EnqueueKeeps(k, r.ring, f.flying, l, fault); } else { EnqueueFails(r.ring, l, fault); }
    case CallCollect(fails) => if Succeeds(r, c) { CollectKeeps(k, r.ring, f.flying); }
    case CallAbandon(ran) => AbandonRecovers(k, r.ring, ran);
    case Device => if !r.ring.broken { DeviceKeeps(k, r.ring, f.flying); }
  }

  ghost predicate AllowedRun(k: Kernel, r: Ran, run: seq<Call>)
    requires Shaped(r.ring)
    decreases |run|
  {
    run == [] || (Allowed(r.ring, run[0]) && AllowedRun(k, Next(k, r, run[0]), run[1..]))
  }

  ghost function Replay(k: Kernel, r: Ran, run: seq<Call>): Ran
    requires Shaped(r.ring) && AllowedRun(k, r, run)
    decreases |run|
  {
    if run == [] then r else Replay(k, Next(k, r, run[0]), run[1..])
  }

  /** The plain queue under the same calls, with the same failures. */
  ghost function Reference(k: Kernel, r: Ran, f: Fifo, run: seq<Call>): Fifo
    requires Shaped(r.ring) && AllowedRun(k, r, run)
    decreases |run|
  {
    if run == [] then f
    else Reference(k, Next(k, r, run[0]), FifoNext(k, f, run[0], Succeeds(r, run[0])), run[1..])
  }

  lemma {:induction false} RunRefines(k: Kernel, r: Ran, f: Fifo, run: seq<Call>)
    requires Refines(k, r, f) && AllowedRun(k, r, run)
    ensures Refines(k, Replay(k, r, run), Reference(k, r, f, run))
    decreases |run|
  {
    if run != [] {
      StepRefines(k, r, f, run[0]);
      RunRefines(k, Next(k, r, run[0]), FifoNext(k, f, run[0], Succeeds(r, run[0])), run[1..]);
    }
  }

  /**
   Every run of calls with `abandon` after each failure, on either kind of
   backend and whenever the device gets to its commands, returns what the plain
   queue returns: each launch's hits, from its own header, target and range.
   */
  lemma RingIsAQueue(k: Kernel, byReference: bool, run: seq<Call>)
    requires AllowedRun(k, Ran(Init(byReference), []), run)
    ensures Refines(k, Replay(k, Ran(Init(byReference), []), run), Reference(k, Ran(Init(byReference), []), Fifo([], []), run))
  {
    RunRefines(k, Ran(Init(byReference), []), Fifo([], []), run);
  }
}
