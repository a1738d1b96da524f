/**
 Which devices are the same card (src/backend/mod.rs): one platform's view of
 each OpenCL card (`dedup_opencl`), and the OpenCL device to fall back to for a
 CUDA card (`pick_opencl_for_cuda`).
 */
module Matching {
  import opened Machine

  // ----- One platform for each card -----

  /** An OpenCL device by platform and by vendor and name, trimmed and in lower case; anything else is kept. */
  datatype Device = Opencl(platform: nat, key: (string, string)) | Other(id: nat)

  function Count(ds: seq<Device>, key: (string, string), p: nat): nat
  {
    if ds == [] then 0
    else Count(ds[..|ds| - 1], key, p) + if ds[|ds| - 1] == Opencl(p, key) then 1 else 0
  }

  /** Platform `p` lists the most of the card, and is the lowest that lists as many. */
  ghost predicate Wins(ds: seq<Device>, key: (string, string), p: nat)
  {
    Count(ds, key, p) > 0 && forall q: nat :: Beats(Count(ds, key, p), p, Count(ds, key, q), q)
  }

  /** `max_by_key` on the count, then the lower platform. */
  predicate Beats(n: nat, p: nat, m: nat, q: nat)
  {
    m < n || (m == n && p <= q)
  }

  ghost predicate Stays(ds: seq<Device>, d: Device)
  {
    d.Opencl? ==> Wins(ds, d.key, d.platform)
  }

  ghost function Kept(ds: seq<Device>, all: seq<Device>): (r: seq<Device>)
  {
    if ds == [] then []
    else Kept(ds[..|ds| - 1], all) + if Stays(all, ds[|ds| - 1]) then [ds[|ds| - 1]] else []
  }

  lemma KeptSnoc(ds: seq<Device>, all: seq<Device>, i: nat)
    requires i < |ds|
    ensures Kept(ds[..i + 1], all) == Kept(ds[..i], all) + if Stays(all, ds[i]) then [ds[i]] else []
  {
    assert ds[..i + 1][..i] == ds[..i];
  }

  lemma CountSnoc(ds: seq<Device>, i: nat, key: (string, string), p: nat)
    requires i < |ds|
    ensures Count(ds[..i + 1], key, p) == Count(ds[..i], key, p) + if ds[i] == Opencl(p, key) then 1 else 0
  {
    assert ds[..i + 1][..i] == ds[..i];
  }

  /** `counts` is the count of every platform and card seen. */
  ghost predicate Counted(counts: map<((string, string), nat), nat>, ds: seq<Device>)
  {
    forall key, p: nat :: ((key, p) in counts <==> Count(ds, key, p) > 0) && ((key, p) in counts ==> counts[(key, p)] == Count(ds, key, p))
  }

  method CountAll(ds: seq<Device>) returns (counts: map<((string, string), nat), nat>)
    ensures Counted(counts, ds)
  {
    counts := map[];
    for i := 0 to |ds|
      invariant Counted(counts, ds[..i])
    {
      forall key, p: nat ensures Count(ds[..i + 1], key, p) == Count(ds[..i], key, p) + if ds[i] == Opencl(p, key) then 1 else 0 {
        CountSnoc(ds, i, key, p);
      }
      match ds[i] {
        case Opencl(p, key) =>
          counts := counts[(key, p) := (if (key, p) in counts then counts[(key, p)] else 0) + 1];
        case Other(_) =>
      }
    }
    assert ds[..|ds|] == ds;
  }

  /** The best of the platforms looked at so far, for every card among them. */
  ghost predicate BestOf(winner: map<(string, string), nat>, seen: set<((string, string), nat)>, counts: map<((string, string), nat), nat>)
  {
    && (forall key, p: nat :: (key, p) in seen ==> (key, p) in counts)
    && (forall key :: key in winner ==> (key, winner[key]) in seen)
    && (forall key, p: nat :: (key, p) in seen ==>
          key in winner && (key, winner[key]) in counts && Beats(counts[(key, winner[key])], winner[key], counts[(key, p)], p))
  }

  /** The winning platform of each card, whatever order the counts come in. */
  method Winners(counts: map<((string, string), nat), nat>) returns (winner: map<(string, string), nat>)
    ensures BestOf(winner, counts.Keys, counts)
  {
    winner := map[];
    var left := counts.Keys;
    ghost var seen := {};
    while left != {}
      invariant left <= counts.Keys && seen == counts.Keys - left
      invariant BestOf(winner, seen, counts)
      decreases left
    {
      var kp :| kp in left;
      var (key, p) := kp;
      if key !in winner || !Beats(counts[(key, winner[key])], winner[key], counts[kp], p) { winner := winner[key := p]; }
      left := left - {kp};
      seen := seen + {kp};
    }
    assert seen == counts.Keys;
  }

  lemma WinnerWins(winner: map<(string, string), nat>, counts: map<((string, string), nat), nat>, ds: seq<Device>, key: (string, string), p: nat)
    requires Counted(counts, ds) && BestOf(winner, counts.Keys, counts)
    requires Count(ds, key, p) > 0
    ensures (key in winner && winner[key] == p) <==> Wins(ds, key, p)
  {
    assert (key, p) in counts.Keys;
    var w := winner[key];
    assert (key, w) in counts.Keys;
    forall q: nat ensures Beats(Count(ds, key, w), w, Count(ds, key, q), q) {
      if (key, q) in counts { assert (key, q) in counts.Keys; }
    }
    if Wins(ds, key, p) {
      assert Beats(Count(ds, key, p), p, Count(ds, key, w), w) && Beats(Count(ds, key, w), w, Count(ds, key, p), p);
    }
  }

  /** `dedup_opencl`. */
  method DedupOpencl(ds: seq<Device>) returns (kept: seq<Device>)
    ensures kept == Kept(ds, ds)
  {
    var counts := CountAll(ds);
    var winner := Winners(counts);
    kept := [];
    for i := 0 to |ds|
      invariant kept == Kept(ds[..i], ds)
    {
      KeptSnoc(ds, ds, i);
      match ds[i] {
        case Opencl(p, key) =>
          CountsItself(ds, i);
          WinnerWins(winner, counts, ds, key, p);
          if key in winner && winner[key] == p { kept := kept + [ds[i]]; }
        case Other(_) => kept := kept + [ds[i]];
      }
    }
    assert ds[..|ds|] == ds;
  }

  lemma {:induction false} CountsItself(ds: seq<Device>, i: nat)
    requires i < |ds| && ds[i].Opencl?
    ensures Count(ds, ds[i].key, ds[i].platform) > 0
  {
    if i < |ds| - 1 { CountsItself(ds[..|ds| - 1], i); }
  }

  /** What is kept of a card: all its devices on the winning platform, none on the others. */
  lemma {:induction false} KeptCount(ds: seq<Device>, all: seq<Device>, key: (string, string), p: nat)
    ensures Count(Kept(ds, all), key, p) == if Wins(all, key, p) then Count(ds, key, p) else 0
  {
    if ds != [] {
      var was, d := ds[..|ds| - 1], ds[|ds| - 1];
      KeptCount(was, all, key, p);
      CountPlus(Kept(was, all), d, key, p);
      assert Kept(was, all) + [] == Kept(was, all);
      if d == Opencl(p, key) { assert Stays(all, d) <==> Wins(all, key, p); }
    }
  }

  lemma CountPlus(ds: seq<Device>, d: Device, key: (string, string), p: nat)
    ensures Count(ds + [d], key, p) == Count(ds, key, p) + if d == Opencl(p, key) then 1 else 0
  {
    assert (ds + [d])[..|ds|] == ds;
  }

  lemma OneWinner(ds: seq<Device>, key: (string, string), p: nat, q: nat)
    requires Wins(ds, key, p) && Wins(ds, key, q)
    ensures p == q
  {
    assert Beats(Count(ds, key, p), p, Count(ds, key, q), q) && Beats(Count(ds, key, q), q, Count(ds, key, p), p);
  }

  /** Some platform wins each card that is listed. */
  lemma {:induction false} SomeWinner(ds: seq<Device>, key: (string, string), p: nat) returns (w: nat)
    requires Count(ds, key, p) > 0
    ensures Wins(ds, key, w) && Count(ds, key, p) <= Count(ds, key, w)
  {
    var counts := GhostCounts(ds);
    w := p;
    var left := counts.Keys;
    while left != {}
      invariant Count(ds, key, w) > 0 && Beats(Count(ds, key, w), w, Count(ds, key, p), p)
      invariant forall q: nat :: Count(ds, key, q) > 0 && (key, q) !in left ==> Beats(Count(ds, key, w), w, Count(ds, key, q), q)
      decreases left
    {
      var kq :| kq in left;
      if kq.0 == key && !Beats(Count(ds, key, w), w, Count(ds, key, kq.1), kq.1) { w := kq.1; }
      left := left - {kq};
    }
  }

  lemma {:induction false} GhostCounts(ds: seq<Device>) returns (counts: map<((string, string), nat), nat>)
    ensures Counted(counts, ds)
  {
    if ds == [] {
      counts := map[];
    } else {
      counts := GhostCounts(ds[..|ds| - 1]);
      var d := ds[|ds| - 1];
      if d.Opencl? {
        var kp := (d.key, d.platform);
        counts := counts[kp := (if kp in counts then counts[kp] else 0) + 1];
      }
    }
  }

  /** Each card keeps exactly the largest of its platforms' counts, all on one platform, the lowest that has so many. */
  lemma LargestCountKept(ds: seq<Device>, key: (string, string), p: nat, q: nat)
    ensures var kept := Kept(ds, ds);
      && (Count(kept, key, p) > 0 ==> Count(kept, key, p) == Count(ds, key, p) >= Count(ds, key, q))
      && (Count(kept, key, p) > 0 && q < p ==> Count(ds, key, q) < Count(ds, key, p))
      && (Count(kept, key, p) > 0 && Count(kept, key, q) > 0 ==> p == q)
      && (Count(ds, key, p) > 0 ==> exists w: nat :: Count(kept, key, w) > 0)
  {
    KeptCount(ds, ds, key, p);
    KeptCount(ds, ds, key, q);
    if Wins(ds, key, p) {
      assert Beats(Count(ds, key, p), p, Count(ds, key, q), q);
      if Wins(ds, key, q) { OneWinner(ds, key, p, q); }
    }
    if Count(ds, key, p) > 0 {
      var w := SomeWinner(ds, key, p);
      KeptCount(ds, ds, key, w);
      assert Count(Kept(ds, ds), key, w) > 0;
    }
  }

  /** The winners win among what is kept, too. */
  lemma StillWins(ds: seq<Device>, key: (string, string), p: nat)
    requires Wins(ds, key, p)
    ensures Wins(Kept(ds, ds), key, p)
  {
    var kept := Kept(ds, ds);
    KeptCount(ds, ds, key, p);
    forall q: nat ensures Beats(Count(kept, key, p), p, Count(kept, key, q), q) {
      KeptCount(ds, ds, key, q);
      if Wins(ds, key, q) { OneWinner(ds, key, p, q); }
    }
  }

  lemma {:induction false} KeptStays(ds: seq<Device>, all: seq<Device>)
    ensures forall d :: d in Kept(ds, all) ==> Stays(all, d)
  {
    if ds != [] { KeptStays(ds[..|ds| - 1], all); }
  }

  lemma {:induction false} AllKept(ds: seq<Device>, all: seq<Device>)
    requires forall i :: 0 <= i < |ds| ==> Stays(all, ds[i])
    ensures Kept(ds, all) == ds
  {
    if ds != [] {
      AllKept(ds[..|ds| - 1], all);
      assert ds == ds[..|ds| - 1] + [ds[|ds| - 1]];
    }
  }

  /** De-duplicating twice is de-duplicating once. */
  lemma DedupIdempotent(ds: seq<Device>)
    ensures Kept(Kept(ds, ds), Kept(ds, ds)) == Kept(ds, ds)
  {
    var kept := Kept(ds, ds);
    KeptStays(ds, ds);
    forall d | d in kept ensures Stays(kept, d) {
      if d.Opencl? { StillWins(ds, d.key, d.platform); }
    }
    AllKept(kept, kept);
  }

  // ----- The OpenCL device of a CUDA card -----

  datatype Cuda = Cuda(index: nat, name: string)
  /** `nvidia`: its vendor's name has that in it. */
  datatype Cl = Cl(name: string, nvidia: bool)

  function Lower(s: string): string
  {
    seq(|s|, i requires 0 <= i < |s| => if 'A' <= s[i] <= 'Z' then (s[i] as int + 32) as char else s[i])
  }

  predicate SameName(a: string, b: string)
  {
    Lower(a) == Lower(b)
  }

  /** The ordinals of the CUDA cards of a name, in the list's order. */
  function Ordinals(cuda: seq<Cuda>, name: string): (r: seq<nat>)
  {
    if cuda == [] then []
    else
      var d := cuda[|cuda| - 1];
      Ordinals(cuda[..|cuda| - 1], name) + if SameName(d.name, name) then [d.index] else []
  }

  /** Where in the OpenCL list the devices of a name are, and those of NVIDIA. */
  function Named(cl: seq<Cl>, name: string): (r: seq<nat>)
  {
    if cl == [] then []
    else Named(cl[..|cl| - 1], name) + if SameName(cl[|cl| - 1].name, name) then [|cl| - 1] else []
  }

  function Nvidia(cl: seq<Cl>): (r: seq<nat>)
  {
    if cl == [] then [] else Nvidia(cl[..|cl| - 1]) + if cl[|cl| - 1].nvidia then [|cl| - 1] else []
  }

  /** The first position of `x`. */
  function Position(s: seq<nat>, x: nat): (p: Option<nat>)
    ensures p.Some? ==> p.value < |s| && s[p.value] == x
    ensures p.None? <==> x !in s
  {
    if s == [] then None
    else if s[0] == x then Some(0)
    else match Position(s[1..], x) case None => None case Some(p) => Some(p + 1)
  }

  /** `pick_opencl_for_cuda`. */
  function Pick(cuda: seq<Cuda>, cl: seq<Cl>, index: nat, name: string): Option<nat>
  {
    var rank, byName := Position(Ordinals(cuda, name), index), Named(cl, name);
    if rank.Some? && rank.value < |byName| then Some(byName[rank.value])
    else if |Nvidia(cl)| == 1 && |cuda| == 1 then Some(Nvidia(cl)[0])
    else if |cl| == 1 && |cuda| == 1 then Some(0)
    else None
  }

  /** The card is in CUDA's list under its name. */
  predicate Present(cuda: seq<Cuda>, index: nat, name: string)
  {
    exists i :: 0 <= i < |cuda| && cuda[i].index == index && SameName(cuda[i].name, name)
  }


  lemma {:induction false} NamedIs(cl: seq<Cl>, name: string)
    ensures forall k :: 0 <= k < |Named(cl, name)| ==> Named(cl, name)[k] < |cl| && SameName(cl[Named(cl, name)[k]].name, name)
    ensures forall j, k :: 0 <= j < k < |Named(cl, name)| ==> Named(cl, name)[j] < Named(cl, name)[k]
  {
    if cl != [] { NamedIs(cl[..|cl| - 1], name); }
  }

  lemma {:induction false} NvidiaIs(cl: seq<Cl>)
    ensures forall k :: 0 <= k < |Nvidia(cl)| ==> Nvidia(cl)[k] < |cl|
  {
    if cl != [] { NvidiaIs(cl[..|cl| - 1]); }
  }

  lemma {:induction false} OrdinalsSame(cuda: seq<Cuda>, a: string, b: string)
    requires SameName(a, b)
    ensures Ordinals(cuda, a) == Ordinals(cuda, b)
  {
    if cuda != [] { OrdinalsSame(cuda[..|cuda| - 1], a, b); }
  }

  lemma {:induction false} NamedSame(cl: seq<Cl>, a: string, b: string)
    requires SameName(a, b)
    ensures Named(cl, a) == Named(cl, b)
  {
    if cl != [] { NamedSame(cl[..|cl| - 1], a, b); }
  }

  lemma {:induction false} OrdinalsAre(cuda: seq<Cuda>, index: nat, name: string)
    ensures index in Ordinals(cuda, name) <==> Present(cuda, index, name)
  {
    if cuda != [] {
      var was, d := cuda[..|cuda| - 1], cuda[|cuda| - 1];
      OrdinalsAre(was, index, name);
      if Present(was, index, name) {
        var i :| 0 <= i < |was| && was[i].index == index && SameName(was[i].name, name);
        assert cuda[i] == was[i];
      }
      if Present(cuda, index, name) {
        var i :| 0 <= i < |cuda| && cuda[i].index == index && SameName(cuda[i].name, name);
        if i < |was| { assert was[i] == cuda[i]; }
      }
    }
  }

  /** A device picked is one of the list. */
  lemma PickInList(cuda: seq<Cuda>, cl: seq<Cl>, index: nat, name: string)
    ensures Pick(cuda, cl, index, name).Some? ==> Pick(cuda, cl, index, name).value < |cl|
  {
    NamedIs(cl, name);
    NvidiaIs(cl);
  }

  /** Two cards CUDA still lists never share an OpenCL device. */
  lemma PickInjective(cuda: seq<Cuda>, cl: seq<Cl>, i: nat, a: string, j: nat, b: string)
    requires Present(cuda, i, a) && Present(cuda, j, b) && i != j
    ensures Pick(cuda, cl, i, a).Some? && Pick(cuda, cl, j, b).Some? ==> Pick(cuda, cl, i, a) != Pick(cuda, cl, j, b)
  {
    assert |cuda| > 1;
    OrdinalsAre(cuda, i, a);
    OrdinalsAre(cuda, j, b);
    NamedIs(cl, a);
    NamedIs(cl, b);
    if SameName(a, b) {
      OrdinalsSame(cuda, a, b);
      NamedSame(cl, a, b);
    }
  }

  lemma {:induction false} PositionBelow(s: seq<nat>, x: nat)
    requires x in s
    ensures Position(s, x).Some? && Position(s, x).value < |s|
  {
    if s[0] != x { PositionBelow(s[1..], x); }
  }

  /** With as many OpenCL devices of a name as cards of it, each card of that name gets one of them. */
  lemma EachGetsItsName(cuda: seq<Cuda>, cl: seq<Cl>, index: nat, name: string)
    requires Present(cuda, index, name) && |Named(cl, name)| >= |Ordinals(cuda, name)|
    ensures var p := Pick(cuda, cl, index, name); p.Some? && p.value < |cl| && SameName(cl[p.value].name, name)
  {
    OrdinalsAre(cuda, index, name);
    PositionBelow(Ordinals(cuda, name), index);
    NamedIs(cl, name);
  }

  /** And so in the lists' order: the first card of the name the first device of it, and so on. */
  lemma PicksInOrder(cuda: seq<Cuda>, cl: seq<Cl>, name: string, r: nat)
    requires r < |Ordinals(cuda, name)| && r < |Named(cl, name)|
    requires forall q :: 0 <= q < r ==> Ordinals(cuda, name)[q] != Ordinals(cuda, name)[r]
    ensures Pick(cuda, cl, Ordinals(cuda, name)[r], name) == Some(Named(cl, name)[r])
  {
    FirstPosition(Ordinals(cuda, name), r);
  }

  lemma {:induction false} FirstPosition(s: seq<nat>, r: nat)
    requires r < |s| && forall q :: 0 <= q < r ==> s[q] != s[r]
    ensures Position(s, s[r]) == Some(r)
  {
    if r > 0 {
      assert forall q :: 0 <= q < r - 1 ==> s[1..][q] == s[q + 1];
      FirstPosition(s[1..], r - 1);
    }
  }

  /** A card CUDA no longer lists gets none, unless a single card is left. */
  lemma VanishedGetsNone(cuda: seq<Cuda>, cl: seq<Cl>, index: nat, name: string)
    requires !Present(cuda, index, name) && |cuda| != 1
    ensures Pick(cuda, cl, index, name) == None
  {
    OrdinalsAre(cuda, index, name);
  }

  /** With a single card left they can collide: the vanished card takes the device of the one that is left. */
  lemma VanishedCanCollide()
    ensures var cuda, cl := [Cuda(1, "B")], [Cl("B", true)];
      !Present(cuda, 0, "A") && Present(cuda, 1, "B") && Pick(cuda, cl, 0, "A") == Pick(cuda, cl, 1, "B") == Some(0)
  {
    var cuda, cl := [Cuda(1, "B")], [Cl("B", true)];
    assert cuda[..0] == [] && cl[..0] == [];
    assert Ordinals(cuda, "B") == [] + [1];
    assert Named(cl, "B") == [] + [0] && Nvidia(cl) == [] + [0];
    OrdinalsAre(cuda, 0, "A");
    assert cuda[0].index == 1 && SameName(cuda[0].name, "B");
  }

  /** Where a card without a match of its name goes, with a single CUDA card listed. */
  function Fallback(cl: seq<Cl>): Option<nat>
  {
    if |Nvidia(cl)| == 1 then Some(Nvidia(cl)[0]) else if |cl| == 1 then Some(0) else None
  }

  /** With a single card listed, what it or a vanished one is given. */
  lemma PickOfOne(cuda: seq<Cuda>, cl: seq<Cl>, index: nat, name: string)
    requires |cuda| == 1
    ensures Pick(cuda, cl, index, name)
         == if index in Ordinals(cuda, name) && Named(cl, name) != [] then Some(Named(cl, name)[0]) else Fallback(cl)
  {
    assert cuda[..0] == [];
    assert |Ordinals(cuda, name)| <= 1;
  }

  /**
   When two different cards share a device: exactly when a single card is left
   in CUDA's list, not both of the two are it, there is a device to fall back to,
   and the one that is listed has no device of its name, or that one first.
   */
  lemma SharedExactlyWhen(cuda: seq<Cuda>, cl: seq<Cl>, i: nat, a: string, j: nat, b: string)
    requires i != j
    ensures Pick(cuda, cl, i, a).Some? && Pick(cuda, cl, i, a) == Pick(cuda, cl, j, b) <==>
      && |cuda| == 1 && !(Present(cuda, i, a) && Present(cuda, j, b))
      && Fallback(cl).Some?
      && (Present(cuda, i, a) && Named(cl, a) != [] ==> Named(cl, a)[0] == Fallback(cl).value)
      && (Present(cuda, j, b) && Named(cl, b) != [] ==> Named(cl, b)[0] == Fallback(cl).value)
  {
    OrdinalsAre(cuda, i, a);
    OrdinalsAre(cuda, j, b);
    if |cuda| == 1 {
      PickOfOne(cuda, cl, i, a);
      PickOfOne(cuda, cl, j, b);
    } else if Present(cuda, i, a) && Present(cuda, j, b) {
      PickInjective(cuda, cl, i, a, j, b);
    } else if !Present(cuda, i, a) {
      VanishedGetsNone(cuda, cl, i, a);
    } else {
      VanishedGetsNone(cuda, cl, j, b);
    }
  }
}
