/**
 The block height in the coinbase (Specification section of BIP 34): written
 by the solver (src/solve.rs), read back from a pool's coinbase
 (src/consensus.rs).
 */
module Bip34 {
  import opened Machine

  // ----- CompactSize -----

  function Varint(n: u64): (s: seq<u8>)
    ensures |s| >= 1
  {
    if n <= 0xfc then [n]
    else if n <= 0xffff then [0xfd] + ToLE(n, 2)
    else if n <= 0xffff_ffff then [0xfe] + ToLE(n, 4)
    else [0xff] + ToLE(n, 8)
  }

  /** `push_varint`. */
  method PushVarint(out: seq<u8>, n: u64) returns (r: seq<u8>)
    ensures r == out + Varint(n)
  {
    if n <= 0xfc {
      r := out + [n];
    } else if n <= 0xffff {
      r := out + [0xfd];
      r := r + ToLE(n, 2);
    } else if n <= 0xffff_ffff {
      r := out + [0xfe];
      r := r + ToLE(n, 4);
    } else {
      r := out + [0xff];
      r := r + ToLE(n, 8);
    }
  }

  /** How far the reader skips, by the first byte. */
  function Skip(first: u8): nat
  {
    match first
    case 0xfd => 3
    case 0xfe => 5
    case 0xff => 9
    case _ => 1
  }

  /** The reader's skip is the writer's length, and what is written denotes the number. */
  lemma VarintRoundTrip(n: u64)
    ensures Skip(Varint(n)[0]) == |Varint(n)|
    ensures n == if |Varint(n)| == 1 then Varint(n)[0] else LE(Varint(n)[1..])
  {
    assert Pow256(2) == 0x1_0000 && Pow256(4) == 0x1_0000_0000;
    if 0xfc < n <= 0xffff {
      LEToLE(n, 2);
    } else if 0xffff < n <= 0xffff_ffff {
      LEToLE(n, 4);
    } else if n > 0xffff_ffff {
      Pow256Add(4, 4);
      LEToLE(n, 8);
    }
  }

  // ----- The writer -----

  /** The bytes of a number, least significant first, none of them for 0. */
  function Bytes(h: nat): (s: seq<u8>)
  {
    if h == 0 then [] else [h % 256] + Bytes(h / 256)
  }

  /** A script number: a zero byte follows where the top bit would read as a sign. */
  function ScriptNumber(h: nat): seq<u8>
  {
    var s := Bytes(h);
    if s != [] && s[|s| - 1] >= 0x80 then s + [0] else s
  }

  /** `bip34_height` of the solver: the height pushed; None: too low. */
  method WriteHeight(height: u32) returns (r: Option<seq<u8>>)
    ensures r == if height <= 16 then None else Some([|ScriptNumber(height)|] + ScriptNumber(height))
  {
    ShortNumber(height);
    if height <= 16 { return None; }
    var num := NumberBytes(height);
    if num != [] && num[|num| - 1] >= 0x80 { num := num + [0]; }
    return Some([|num|] + num);
  }

  method NumberBytes(height: nat) returns (num: seq<u8>)
    ensures num == Bytes(height)
  {
    num := [];
    var h := height;
    while h > 0
      invariant num + Bytes(h) == Bytes(height)
    {
      assert num + Bytes(h) == (num + [h % 256]) + Bytes(h / 256);
      num := num + [h % 256];
      h := h / 256;
    }
    assert num + [] == num;
  }

  /** How many bytes a script number below 2^32 takes: at most four exactly below 2^31. */
  lemma ShortNumber(h: u32)
    ensures |ScriptNumber(h)| <= 5 && (|ScriptNumber(h)| <= 4 <==> h < 0x8000_0000)
    ensures h > 0 ==> |ScriptNumber(h)| >= 1
  {
    BytesLength(h);
    if h >= 0x100_0000 { TopByte(h); }
  }

  lemma BytesLength(h: u32)
    ensures |Bytes(h)| == if h == 0 then 0 else if h < 0x100 then 1 else if h < 0x1_0000 then 2 else if h < 0x100_0000 then 3 else 4
  {
    var a, b, c := h / 0x100, h / 0x100 / 0x100, h / 0x100 / 0x100 / 0x100;
    assert c / 0x100 == 0;
    assert |Bytes(c)| == if c == 0 then 0 else 1;
    assert |Bytes(b)| == if b == 0 then 0 else 1 + |Bytes(c)|;
    assert |Bytes(a)| == if a == 0 then 0 else 1 + |Bytes(b)|;
  }

  lemma TopByte(h: u32)
    requires h >= 0x100_0000
    ensures |Bytes(h)| == 4 && Bytes(h)[3] == h / 0x100_0000
  {
    BytesLength(h);
    var a, b, c := h / 0x100, h / 0x100 / 0x100, h / 0x100 / 0x100 / 0x100;
    assert c == h / 0x100_0000 && c < 0x100;
    assert Bytes(h)[3] == Bytes(a)[2] == Bytes(b)[1] == Bytes(c)[0];
  }

  lemma {:induction false} BytesDenote(h: nat)
    ensures LE(Bytes(h)) == h
  {
    if h != 0 {
      BytesDenote(h / 256);
      assert Bytes(h)[1..] == Bytes(h / 256);
    }
  }

  lemma ScriptNumberDenotes(h: nat)
    ensures LE(ScriptNumber(h)) == h
    ensures ScriptNumber(h) != [] ==> ScriptNumber(h)[|ScriptNumber(h)| - 1] < 0x80
  {
    BytesDenote(h);
    var s := Bytes(h);
    LEConcat(s, [0], |s|);
    assert [0][1..] == [];
    assert LE([0]) == 0 + 256 * LE([0][1..]);
  }

  const EXTRANONCES: nat := 4 + 4
  const MIN_SCRIPT_SIG: nat := 2
  const MAX_SCRIPT_SIG: nat := 100

  /** The first part of the coinbase (`Template::parse`), as far as the text; None: the height or the script's length is refused. */
  method WriteCoinbase1(height: u32, text: seq<u8>) returns (r: Option<seq<u8>>)
    ensures r.Some? <==> height > 16 && MIN_SCRIPT_SIG <= 1 + |ScriptNumber(height)| + |text| + EXTRANONCES <= MAX_SCRIPT_SIG
    ensures r.Some? ==> HeightOf(r.value) == if height < 0x8000_0000 then Some(height) else None
    ensures r.Some? ==> CoinbaseSays(r.value, height, text)
  {
    var pushed := WriteHeight(height);
    if pushed.None? { return None; }
    var length := |pushed.value| + |text| + EXTRANONCES;
    if length < MIN_SCRIPT_SIG || length > MAX_SCRIPT_SIG { return None; }
    var out := ToLE(2, 4) + [1];
    out := out + seq(32, _ => 0);
    out := out + [0xff, 0xff, 0xff, 0xff];
    assert out == Front();
    out := PushVarint(out, length);
    out := out + pushed.value;
    out := out + text;
    HeightRoundTrip(height, text, length);
    assert out == Coinbase1(pushed.value, text, length);
    Coinbase1Says(height, text, length);
    return Some(out);
  }

  /**
   Version 2, one input, of the null outpoint; then the script's length, which
   counts what is written of it and the extranonces to come, the height and the text.
   */
  ghost predicate CoinbaseSays(s: seq<u8>, height: u32, text: seq<u8>)
  {
    var n := |ScriptNumber(height)|;
    && |s| == 43 + n + |text|
    && LE(s[0..4]) == 2 && s[4] == 1
    && (forall i :: 5 <= i < 37 ==> s[i] == 0) && (forall i :: 37 <= i < 41 ==> s[i] == 0xff)
    && s[41] == |s| - 42 + EXTRANONCES
    && s[42] == n && s[43..43 + n] == ScriptNumber(height) && s[43 + n..] == text
  }

  lemma Coinbase1Says(height: u32, text: seq<u8>, length: u64)
    requires length == 1 + |ScriptNumber(height)| + |text| + EXTRANONCES && length <= MAX_SCRIPT_SIG
    requires |ScriptNumber(height)| <= 5
    ensures CoinbaseSays(Coinbase1([|ScriptNumber(height)|] + ScriptNumber(height), text, length), height, text)
  {
    var num := ScriptNumber(height);
    var s := Coinbase1([|num|] + num, text, length);
    assert s == Front() + [length] + [|num|] + num + text;
    assert s[0..4] == ToLE(2, 4);
    assert Pow256(4) == U32;
    LEToLE(2, 4);
    assert s[43..43 + |num|] == num && s[43 + |num|..] == text;
  }

  /** Version 2, one input of the null outpoint, the script's length, then height and text. */
  function Coinbase1(height: seq<u8>, text: seq<u8>, scriptLength: u64): seq<u8>
  {
    Front() + Varint(scriptLength) + height + text
  }

  function Front(): (s: seq<u8>)
    ensures |s| == 41
  {
    ToLE(2, 4) + [1] + seq(32, _ => 0) + [0xff, 0xff, 0xff, 0xff]
  }

  // ----- The reader -----

  /** `bip34_height` of the pool side. */
  function HeightOf(coinb1: seq<u8>): (h: Option<nat>)
  {
    if |coinb1| <= 41 then None else
    var pos := 41 + Skip(coinb1[41]);
    if |coinb1| <= pos then None else
    var op := coinb1[pos];
    if op == 0 then Some(0)
    else if 0x51 <= op <= 0x60 then Some(op - 0x50)
    else if op > 4 || pos + 1 + op > |coinb1| then None else
    var bytes := coinb1[pos + 1..pos + 1 + op];
    if bytes[op - 1] >= 0x80 then None else Some(LE(bytes))
  }

  method ReadHeight(coinb1: seq<u8>) returns (r: Option<u32>)
    ensures (r.None? <==> HeightOf(coinb1).None?) && (r.Some? ==> HeightOf(coinb1) == Some(r.value))
  {
    var pos := 4 + 1 + 36;
    if pos >= |coinb1| { return None; }
    pos := pos + Skip(coinb1[pos]);
    if pos >= |coinb1| { return None; }
    var op := coinb1[pos];
    if op == 0 { return Some(0); }
    if 0x51 <= op <= 0x60 { return Some(op - 0x50); }
    if op > 4 { return None; }
    pos := pos + 1;
    if pos + op > |coinb1| { return None; }
    var bytes := coinb1[pos..pos + op];
    if bytes[op - 1] >= 0x80 { return None; }
    var height: nat, weight: nat := 0, 1;
    for i := 0 to op
      invariant weight == Pow256(i) && height == LE(bytes[..i])
    {
      LEConcat(bytes[..i], [bytes[i]], i);
      assert bytes[..i + 1] == bytes[..i] + [bytes[i]];
      OneByte(bytes[i]);
      height := height + weight * bytes[i];
      weight := 256 * weight;
    }
    assert bytes[..op] == bytes;
    LEBound(bytes);
    FourBytes(op);
    return Some(height);
  }

  lemma OneByte(b: u8)
    ensures LE([b]) == b
  {
    assert [b][1..] == [];
  }

  lemma FourBytes(n: nat)
    requires n <= 4
    ensures Pow256(n) <= U32
  {
    assert Pow256(4) == 0x1_0000_0000 && Pow256(3) == 0x100_0000 && Pow256(2) == 0x1_0000 && Pow256(1) == 0x100;
  }

  /**
   Every height the solver writes reads back, whatever text follows it and
   however long the script is said to be - up to 2^31 - 1; a larger one reads as none.
   */
  lemma HeightRoundTrip(height: u32, text: seq<u8>, scriptLength: u64)
    requires height > 16
    ensures |ScriptNumber(height)| <= 5
    ensures HeightOf(Coinbase1([|ScriptNumber(height)|] + ScriptNumber(height), text, scriptLength))
         == if height < 0x8000_0000 then Some(height) else None
  {
    ShortNumber(height);
    ScriptNumberDenotes(height);
    VarintRoundTrip(scriptLength);
    var num := ScriptNumber(height);
    ReadsPush(Varint(scriptLength), num, text);
  }

  /** What is pushed reads as the number its bytes denote - if it is at most four bytes and not negative. */
  lemma ReadsPush(length: seq<u8>, num: seq<u8>, text: seq<u8>)
    requires length != [] && Skip(length[0]) == |length| && 1 <= |num| <= 0x4b
    ensures HeightOf(Front() + length + ([|num|] + num) + text)
         == if |num| <= 4 && num[|num| - 1] < 0x80 then Some(LE(num)) else None
  {
    var s := Front() + length + ([|num|] + num) + text;
    var pos := 41 + |length|;
    assert s[41] == length[0] && s[pos] == |num|;
    assert s[pos + 1..pos + 1 + |num|] == num;
  }

  /** Heights up to 16 are opcodes: 0 is an empty push, 1 to 16 are OP_1 to OP_16. */
  lemma ReadsOpcode(length: seq<u8>, n: nat, rest: seq<u8>)
    requires length != [] && Skip(length[0]) == |length| && n <= 16
    ensures HeightOf(Front() + length + [if n == 0 then 0 else 0x50 + n] + rest) == Some(n)
  {
    var s := Front() + length + [if n == 0 then 0 else 0x50 + n] + rest;
    assert s[41] == length[0] && s[41 + |length|] == if n == 0 then 0 else 0x50 + n;
  }
}
