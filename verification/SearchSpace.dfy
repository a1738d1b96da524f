/**
 The search space of a job (src/shared.rs) and the walk of one worker through
 it (src/gpu_worker.rs, src/worker.rs): the cursor, the launches taken from
 it, and the linear places they stand for.

 Worker `w` of `n` owns the extranonce2 counters w, w + n, w + 2n, ... Its
 place p is nonce p % 2^32 of its (p / 2^32)-th counter.
 */
module SearchSpace {
  import opened Machine

  /** The fields of a job that feed the header: what `same_search_space` compares. */
  datatype Space = Space(
    extranonce1: seq<u8>, extranonce2Size: nat, coinb1: seq<u8>, coinb2: seq<u8>,
    merkleSteps: seq<Digest>, version: u32, prevHash: Digest, bits: u32, ntime: u32)

  datatype MinerJob = MinerJob(jobId: string, space: Space, shareTarget: Digest)

  /** `MinerJob::same_search_space`, field by field. */
  predicate SameSearchSpace(a: MinerJob, b: MinerJob)
  {
    && a.space.extranonce1 == b.space.extranonce1
    && a.space.extranonce2Size == b.space.extranonce2Size
    && a.space.coinb1 == b.space.coinb1
    && a.space.coinb2 == b.space.coinb2
    && a.space.merkleSteps == b.space.merkleSteps
    && a.space.version == b.space.version
    && a.space.prevHash == b.space.prevHash
    && a.space.bits == b.space.bits
    && a.space.ntime == b.space.ntime
  }

  /** `en2_fits`. */
  predicate Fits(en2: u64, size: nat)
  {
    size >= 8 || en2 < Pow256(size)
  }

  /** `encode_extranonce2`: the low `size` bytes of the counter, big-endian. */
  function Encode(counter: u64, size: nat): (s: seq<u8>)
    ensures |s| == size
  {
    var bytes := ToBE(counter, 8);
    if size >= 8 then seq(size - 8, _ => 0) + bytes else bytes[8 - size..]
  }

  lemma {:induction false} ToBETail(v: nat, n: nat, k: nat)
    requires k <= n
    ensures ToBE(v, n)[n - k..] == ToBE(v, k)
  {
    if k != 0 {
      ToBETail(v / 256, n - 1, k - 1);
      assert ToBE(v, n)[n - k..] == ToBE(v / 256, n - 1)[n - k..] + [v % 256];
    }
  }

  /** Up to seven bytes the counters that fit name each byte string exactly once. */
  lemma EncodeBijective(size: nat)
    requires size <= 7
    ensures forall c: u64 :: Fits(c, size) ==> BE(Encode(c, size)) == c
    ensures forall s: seq<u8> :: |s| == size ==> BE(s) < Pow256(7) && Fits(BE(s), size) && Encode(BE(s), size) == s
  {
    Pow256Add(size, 7 - size);
    assert Pow256(7) == 0x100_0000_0000_0000;
    assert Pow256(size) <= Pow256(size) * Pow256(7 - size);
    forall c: u64 | Fits(c, size)
      ensures BE(Encode(c, size)) == c
    {
      ToBETail(c, 8, size);
      BEToBE(c, size);
    }
    forall s: seq<u8> | |s| == size
      ensures BE(s) < Pow256(7) && Fits(BE(s), size) && Encode(BE(s), size) == s
    {
      ToBEBE(s);
      ToBETail(BE(s), 8, size);
    }
  }

  /** At every size the bytes are the counter, if it fits, and as many as asked for. */
  lemma EncodeDenotes(c: u64, size: nat)
    requires Fits(c, size)
    ensures |Encode(c, size)| == size && BE(Encode(c, size)) == c
  {
    if size >= 8 {
      var zeros: seq<u8> := seq(size - 8, _ => 0);
      assert Pow256(8) == U64 by { Pow256Add(4, 4); assert Pow256(4) == U32; }
      BEToBE(c, 8);
      BEConcat(zeros, ToBE(c, 8), 8);
      NoughtsAreNought(size - 8);
    } else {
      EncodeBijective(size);
    }
  }

  lemma {:induction false} NoughtsAreNought(n: nat)
    ensures BE(seq(n, _ => 0)) == 0
  {
    if n > 0 {
      NoughtsAreNought(n - 1);
      var zeros: seq<u8>, was: seq<u8> := seq(n, _ => 0), seq(n - 1, _ => 0);
      assert zeros == was + [0];
      BESnoc(was, 0);
    }
  }

  // ----- The cursor -----

  datatype Cursor = Cursor(en2: u64, nonce: u32)

  /** A launch: `count` nonces from `start` under one extranonce2. */
  datatype Range = Range(en2: u64, start: u32, count: u32)

  /** `Cursor::take`: a launch from the cursor on, and where that leaves the cursor. */
  function Take(c: Cursor, max: u32, stride: u64): (r: (Cursor, Range))
  {
    var left := U32 - c.nonce;
    var count := Min(Max(max, 1), left);
    var taken := Range(c.en2, c.nonce, count);
    var next := c.nonce + count;
    if next >= U32 then (Cursor(Min(c.en2 + stride, U64 - 1), next - U32), taken)
    else (Cursor(c.en2, next), taken)
  }

  /** The counter of row k of worker `w` of `n`: w + k * n. */
  function Row(w: nat, n: nat, k: nat): (e: nat)
  {
    if k == 0 then w else Row(w, n, k - 1) + n
  }

  /** The cursor that stands at place p; a counter past the top saturates. */
  ghost predicate At(w: nat, n: nat, p: nat, c: Cursor)
  {
    c.nonce == p % U32 && c.en2 == Min(Row(w, n, p / U32), U64 - 1)
  }

  /** The launch r starts at place p and stays under one extranonce2. */
  ghost predicate RangeAt(w: nat, n: nat, r: Range, p: nat)
  {
    r.en2 == Row(w, n, p / U32) && r.start == p % U32 && r.count >= 1 && r.start + r.count <= U32
  }

  /**
   `Cursor::take` moves the place on by exactly as many nonces as it returns,
   whatever the cursor and the stride; the launch lies at the place it left
   exactly if the counter there has not saturated.
   */
  lemma TakeMovesOn(w: nat, n: u64, p: nat, c: Cursor, max: u32)
    requires At(w, n, p, c)
    ensures var (c', r) := Take(c, max, n);
      && r.count <= Max(max, 1) && At(w, n, p + r.count, c')
      && (RangeAt(w, n, r, p) <==> Row(w, n, p / U32) < U64)
  {
    var (c', r) := Take(c, max, n);
    assert Row(w, n, p / U32 + 1) == Row(w, n, p / U32) + n;
    if c.nonce + r.count == U32 {
      assert (p + r.count) / U32 == p / U32 + 1;
    } else {
      assert (p + r.count) / U32 == p / U32;
    }
  }

  /**
   When does `take` give up its ground for good? Exactly unless the launch
   uses up the nonces of the counter u64::MAX: there the saturating add stays
   put, and the next launch starts over at nonce 0 of the same extranonce2.
   */
  lemma TakeRepeatsWhen(c: Cursor, max: u32, stride: u64)
    requires stride >= 1
    ensures var (c', r) := Take(c, max, stride);
      var repeats := c'.en2 == r.en2 && c'.nonce < r.start + r.count;
      repeats <==> c.en2 == U64 - 1 && c.nonce + Max(max, 1) >= U32
  {
  }

  // ----- Tilings -----

  function Total(rs: seq<Range>): (t: nat)
  {
    if rs == [] then 0 else Total(rs[..|rs| - 1]) + rs[|rs| - 1].count
  }

  /** The launches cover the places from 0 on with no gap and no overlap. */
  ghost predicate Tiles(w: nat, n: nat, rs: seq<Range>)
  {
    rs == [] ||
    (var i := |rs| - 1; Tiles(w, n, rs[..i]) && RangeAt(w, n, rs[i], Total(rs[..i])))
  }

  predicate Covers(r: Range, e: nat, nonce: nat)
  {
    r.en2 == e && r.start <= nonce < r.start + r.count
  }

  /** How often the launches hash nonce `nonce` of counter `e`. */
  function Times(rs: seq<Range>, e: nat, nonce: nat): (t: nat)
  {
    if rs == [] then 0
    else Times(rs[..|rs| - 1], e, nonce) + if Covers(rs[|rs| - 1], e, nonce) then 1 else 0
  }

  lemma TotalSnoc(rs: seq<Range>, r: Range)
    ensures Total(rs + [r]) == Total(rs) + r.count
  {
    assert (rs + [r])[..|rs|] == rs;
  }

  lemma TilesSnoc(w: nat, n: nat, rs: seq<Range>, r: Range)
    requires Tiles(w, n, rs) && RangeAt(w, n, r, Total(rs))
    ensures Tiles(w, n, rs + [r])
  {
    assert (rs + [r])[..|rs|] == rs;
  }

  /** A tiling's prefix tiles, and the launch after it starts where it ends. */
  lemma {:induction false} TilesPrefix(w: nat, n: nat, rs: seq<Range>, i: nat)
    requires Tiles(w, n, rs) && i <= |rs|
    ensures Tiles(w, n, rs[..i])
    ensures i < |rs| ==> RangeAt(w, n, rs[i], Total(rs[..i]))
    decreases |rs|
  {
    if i == |rs| {
      assert rs[..i] == rs;
    } else {
      var m := |rs| - 1;
      TilesPrefix(w, n, rs[..m], Min(i, m));
      assert rs[..m][..i] == rs[..i];
    }
  }

  lemma {:induction false} RowsApart(w: nat, n: nat, k: nat, k': nat)
    requires k < k'
    ensures Row(w, n, k) + n <= Row(w, n, k')
  {
    if k < k' - 1 {
      RowsApart(w, n, k, k' - 1);
    }
  }

  /** A counter has one owner and one row. */
  lemma {:induction false} RowUnique(w: nat, n: nat, k: nat, w': nat, k': nat)
    requires w < n && w' < n && Row(w, n, k) == Row(w', n, k')
    ensures w == w' && k == k'
  {
    if k != 0 && k' != 0 {
      RowUnique(w, n, k - 1, w', k' - 1);
    }
  }

  lemma {:induction false} RowOf(n: nat, e: nat) returns (own: nat, k: nat)
    requires n >= 1
    ensures own < n && e == Row(own, n, k)
    decreases e
  {
    if e < n {
      own, k := e, 0;
    } else {
      own, k := RowOf(n, e - n);
      k := k + 1;
    }
  }

  /** A tiling hashes the places below its total once, and nothing else at all. */
  lemma {:induction false} TilesExactlyOnce(w: nat, n: nat, rs: seq<Range>, w': nat, k: nat, nonce: nat)
    requires w < n && w' < n && nonce < U32
    requires Tiles(w, n, rs)
    ensures Times(rs, Row(w', n, k), nonce) ==
            if w' == w && k * U32 + nonce < Total(rs) then 1 else 0
  {
    if rs != [] {
      var i := |rs| - 1;
      TilesExactlyOnce(w, n, rs[..i], w', k, nonce);
      var p, r := Total(rs[..i]), rs[i];
      if Covers(r, Row(w', n, k), nonce) {
        RowUnique(w, n, p / U32, w', k);
        assert p <= k * U32 + nonce < p + r.count;
      }
    }
  }
}
