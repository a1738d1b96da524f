/**
 The header of one (extranonce2, nonce) of a job (src/consensus.rs,
 src/gpu_worker.rs `en2_header`) and what makes a share of it sound, as the
 pool sees it (src/bench.rs `check`). SHA256d and the proof of work are any
 two functions to 32 bytes.
 */
module Headers {
  import opened Machine
  import opened SearchSpace
  import opened Targets

  datatype Hashes = Hashes(sha256d: seq<u8> -> Digest, pow: seq<u8> -> Digest)

  datatype BlockHeader = BlockHeader(
    version: u32, prevHash: Digest, merkleRoot: Digest, time: u32, bits: u32, nonce: u32)

  /** The header up to its nonce: what a launch is given (`header76`). */
  function Front(h: BlockHeader): (s: seq<u8>)
    ensures |s| == 76
  {
    ToLE(h.version, 4) + h.prevHash + h.merkleRoot + ToLE(h.time, 4) + ToLE(h.bits, 4)
  }

  /** `BlockHeader::serialize`. */
  function Serialize(h: BlockHeader): (s: seq<u8>)
    ensures |s| == 80 && s[..76] == Front(h) && s[76..] == ToLE(h.nonce, 4)
  {
    Front(h) + ToLE(h.nonce, 4)
  }

  /** Where each field is in the 80 bytes, numbers with their low byte first. */
  lemma HeaderLayout(h: BlockHeader)
    ensures var s := Serialize(h);
      && |s| == 80
      && LE(s[0..4]) == h.version && s[4..36] == h.prevHash && s[36..68] == h.merkleRoot
      && LE(s[68..72]) == h.time && LE(s[72..76]) == h.bits && LE(s[76..80]) == h.nonce
  {
    var s := Serialize(h);
    assert s[0..4] == ToLE(h.version, 4) && s[68..72] == ToLE(h.time, 4);
    assert s[72..76] == ToLE(h.bits, 4) && s[76..80] == ToLE(h.nonce, 4);
    FourBytes(h.version);
    FourBytes(h.time);
    FourBytes(h.bits);
    FourBytes(h.nonce);
  }

  lemma FourBytes(v: u32)
    ensures LE(ToLE(v, 4)) == v
  {
    assert Pow256(4) == U32;
    LEToLE(v, 4);
  }

  function Root(h: Hashes, txid: Digest, steps: seq<Digest>): (root: Digest)
  {
    if steps == [] then txid
    else h.sha256d(Root(h, txid, steps[..|steps| - 1]) + steps[|steps| - 1])
  }

  /** `root_from_steps`. */
  method RootFromSteps(h: Hashes, txid: Digest, steps: seq<Digest>) returns (acc: Digest)
    ensures acc == Root(h, txid, steps)
  {
    acc := txid;
    for i := 0 to |steps|
      invariant acc == Root(h, txid, steps[..i])
    {
      assert steps[..i + 1][..i] == steps[..i];
      acc := h.sha256d(acc + steps[i]);
    }
    assert steps[..|steps|] == steps;
  }

  // ----- The root of the block's transactions -----

  /** The level above: hashes of pairs, the last one paired with itself if it is alone. */
  function LevelAbove(h: Hashes, level: seq<Digest>): (above: seq<Digest>)
    ensures |above| == (|level| + 1) / 2
  {
    seq((|level| + 1) / 2, i requires 0 <= i < (|level| + 1) / 2 =>
      Above(h, level[2 * i], level[if 2 * i + 1 < |level| then 2 * i + 1 else 2 * i]))
  }

  function Above(h: Hashes, left: Digest, right: Digest): (d: Digest)
  {
    h.sha256d(left + right)
  }

  function TreeRoot(h: Hashes, txids: seq<Digest>): (root: Digest)
    requires txids != []
    decreases |txids|
  {
    if |txids| == 1 then txids[0] else TreeRoot(h, LevelAbove(h, txids))
  }

  /** What the first transaction's path to the root passes on its right: what a pool sends as steps. */
  function Siblings(h: Hashes, txids: seq<Digest>): (steps: seq<Digest>)
    requires txids != []
    decreases |txids|
  {
    if |txids| == 1 then [] else [txids[1]] + Siblings(h, LevelAbove(h, txids))
  }

  lemma {:induction false} RootCons(h: Hashes, txid: Digest, step: Digest, steps: seq<Digest>)
    ensures Root(h, txid, [step] + steps) == Root(h, h.sha256d(txid + step), steps)
  {
    var all := [step] + steps;
    if steps == [] {
      assert all[..0] == [];
    } else {
      var m := |steps| - 1;
      assert all[..|all| - 1] == [step] + steps[..m];
      RootCons(h, txid, step, steps[..m]);
    }
  }

  /**
   The steps of a block's transactions, whatever takes the coinbase's place
   among them, lead from a coinbase's hash to the root of all with it in front.
   */
  lemma {:induction false} StepsLeadToTheRoot(h: Hashes, txids: seq<Digest>, coinbase: Digest)
    requires txids != []
    ensures Root(h, coinbase, Siblings(h, txids)) == TreeRoot(h, txids[0 := coinbase])
    decreases |txids|
  {
    if |txids| > 1 {
      var above, first := LevelAbove(h, txids), h.sha256d(coinbase + txids[1]);
      RootCons(h, coinbase, txids[1], Siblings(h, above));
      StepsLeadToTheRoot(h, above, first);
      assert LevelAbove(h, txids[0 := coinbase]) == above[0 := first];
    }
  }

  function Coinbase(sp: Space, extranonce2: seq<u8>): (s: seq<u8>)
  {
    sp.coinb1 + sp.extranonce1 + extranonce2 + sp.coinb2
  }

  /** Where the parts of the coinbase are. */
  lemma CoinbaseLayout(sp: Space, extranonce2: seq<u8>)
    ensures var s, a := Coinbase(sp, extranonce2), |sp.coinb1|;
      var b := a + |sp.extranonce1|;
      var c := b + |extranonce2|;
      && |s| == c + |sp.coinb2|
      && s[..a] == sp.coinb1 && s[a..b] == sp.extranonce1 && s[b..c] == extranonce2 && s[c..] == sp.coinb2
  {
  }

  function HeaderOf(h: Hashes, sp: Space, extranonce2: seq<u8>, time: u32, nonce: u32): (b: BlockHeader)
  {
    BlockHeader(sp.version, sp.prevHash, Root(h, h.sha256d(Coinbase(sp, extranonce2)), sp.merkleSteps), time, sp.bits, nonce)
  }

  /** What the 80 bytes of a header of the space say of it, and of the block it is for. */
  lemma HeaderSays(h: Hashes, sp: Space, extranonce2: seq<u8>, time: u32, nonce: u32, txids: seq<Digest>)
    requires txids != [] && sp.merkleSteps == Siblings(h, txids)
    ensures var s := Serialize(HeaderOf(h, sp, extranonce2, time, nonce));
      && |s| == 80
      && LE(s[0..4]) == sp.version && s[4..36] == sp.prevHash
      && s[36..68] == TreeRoot(h, txids[0 := h.sha256d(Coinbase(sp, extranonce2))])
      && LE(s[68..72]) == time && LE(s[72..76]) == sp.bits && LE(s[76..80]) == nonce
  {
    HeaderLayout(HeaderOf(h, sp, extranonce2, time, nonce));
    StepsLeadToTheRoot(h, txids, h.sha256d(Coinbase(sp, extranonce2)));
  }

  /** The header of one extranonce2 with nonce 0, built once (`en2_header`). */
  method En2Header(h: Hashes, sp: Space, extranonce2: seq<u8>) returns (b: BlockHeader)
    ensures b == HeaderOf(h, sp, extranonce2, sp.ntime, 0)
  {
    var coinbase := sp.coinb1 + sp.extranonce1 + extranonce2 + sp.coinb2;
    var root := RootFromSteps(h, h.sha256d(coinbase), sp.merkleSteps);
    b := BlockHeader(sp.version, sp.prevHash, root, sp.ntime, sp.bits, 0);
  }

  /** `FoundShare`, without its timing. */
  datatype Share = Share(jobId: string, extranonce2: seq<u8>, ntime: u32, nonce: u32, isBlock: bool)

  /** What a pool that knows the job makes of a share. */
  function Rebuilt(h: Hashes, job: MinerJob, share: Share): (s: seq<u8>)
  {
    Serialize(HeaderOf(h, job.space, share.extranonce2, share.ntime, share.nonce))
  }

  /** The hash meets the target the miner takes nBits for. */
  ghost predicate CalledBlock(bits: u32, hash: Digest)
  {
    MinedTarget(bits).Some? && LE(hash) <= MinedTarget(bits).value
  }

  /** The hash meets the target nBits stand for. */
  ghost predicate IsBlock(bits: u32, hash: Digest)
  {
    BlockTarget(bits).Some? && LE(hash) <= BlockTarget(bits).value
  }

  lemma {:induction false} ZerosAreZero(n: nat)
    ensures LE(seq(n, _ => 0)) == 0
  {
    if n > 0 {
      ZerosAreZero(n - 1);
      var z: seq<u8> := seq(n, _ => 0);
      assert z[1..] == seq(n - 1, _ => 0);
    }
  }

  /**
   Every hash is called a block exactly when it is one - if and only if the
   exponent of nBits is at most 32, or nBits stand for no target at all.
   */
  lemma CalledBlockTells(bits: u32)
    ensures (forall hash: Digest :: CalledBlock(bits, hash) <==> IsBlock(bits, hash))
       <==> Exponent(bits) <= 32 || BlockTarget(bits).None?
  {
    MinedIsBlockTarget(bits);
    if Exponent(bits) > 32 && BlockTarget(bits).Some? {
      ZerosAreZero(32);
      var zero: Digest := seq(32, _ => 0);
      assert IsBlock(bits, zero) && !CalledBlock(bits, zero);
    } else if Exponent(bits) > 32 {
      assert MinedTarget(bits).None?;
    }
  }

  /** The pool accepts the share, and it is called a block as the miner reads nBits (see CalledBlockTells). */
  ghost predicate Sound(h: Hashes, job: MinerJob, share: Share)
  {
    var hash := h.pow(Rebuilt(h, job, share));
    share.jobId == job.jobId && Meets(hash, job.shareTarget) && (share.isBlock <==> CalledBlock(job.space.bits, hash))
  }

  /**
   Two jobs of one search space ask for the same headers: hashing a space
   again finds the same shares again. This is what makes a retarget no news.
   */
  lemma SameSpaceSameHeaders(h: Hashes, a: MinerJob, b: MinerJob, share: Share)
    ensures SameSearchSpace(a, b) <==> a.space == b.space
    ensures SameSearchSpace(a, b) ==> Rebuilt(h, a, share) == Rebuilt(h, b, share)
  {
  }

  /** Patching the last four bytes of a header with nonce 0 is serializing it with the nonce. */
  lemma PatchedHeader(b: BlockHeader, nonce: u32)
    ensures Serialize(b)[..76] + ToLE(nonce, 4) == Serialize(b.(nonce := nonce))
  {
  }

  /** Re-check one header and make it a share, as `finish` and the CPU's `mine_job` do. */
  method Recheck(h: Hashes, job: MinerJob, extranonce2: seq<u8>, nonce: u32, header: seq<u8>, blockTarget: Option<Digest>)
    returns (r: Option<Share>)
    requires header == Serialize(HeaderOf(h, job.space, extranonce2, job.space.ntime, nonce))
    requires blockTarget.None? <==> MinedTarget(job.space.bits).None?
    requires blockTarget.Some? ==> BE(blockTarget.value) == MinedTarget(job.space.bits).value
    ensures r.Some? <==> Meets(h.pow(header), job.shareTarget)
    ensures r.Some? ==> Sound(h, job, r.value) && r.value.extranonce2 == extranonce2 && r.value.nonce == nonce
  {
    var hash := h.pow(header);
    var meets := HashMeetsTarget(hash, job.shareTarget);
    if !meets {
      return None;
    }
    var isBlock := false;
    if blockTarget.Some? {
      isBlock := HashMeetsTarget(hash, blockTarget.value);
    }
    r := Some(Share(job.jobId, extranonce2, job.space.ntime, nonce, isBlock));
  }
}
