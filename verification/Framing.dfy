/**
 Lines out of the pool's byte stream (src/stratum.rs `next_line`): the stream
 arrives in pieces and pauses, a line is delivered when its newline is there,
 and what is left stays in the buffer.
 */
module Framing {
  import opened Machine

  const MAX_LINE_BYTES: nat := 65536
  const CHUNK: nat := 8192
  const NEWLINE: u8 := 10
  const RETURN: u8 := 13

  // ----- The stream, cut at newlines -----

  /** The complete lines of a stream, without their newlines. */
  function Lines(s: seq<u8>): (lines: seq<seq<u8>>)
  {
    if s == [] then []
    else if s[|s| - 1] == NEWLINE then Lines(s[..|s| - 1]) + [Rest(s[..|s| - 1])]
    else Lines(s[..|s| - 1])
  }

  /** What follows the last newline. */
  function Rest(s: seq<u8>): (r: seq<u8>)
    ensures Plain(r)
  {
    if s == [] || s[|s| - 1] == NEWLINE then [] else Rest(s[..|s| - 1]) + [s[|s| - 1]]
  }

  /** Lines with their newlines again. */
  function Raw(lines: seq<seq<u8>>): seq<u8>
  {
    if lines == [] then [] else Raw(lines[..|lines| - 1]) + lines[|lines| - 1] + [NEWLINE]
  }

  lemma RawSnoc(lines: seq<seq<u8>>, line: seq<u8>)
    ensures Raw(lines + [line]) == Raw(lines) + line + [NEWLINE]
  {
    assert (lines + [line])[..|lines|] == lines;
  }

  /** Cutting loses nothing. */
  lemma {:induction false} LinesAndRest(s: seq<u8>)
    ensures Raw(Lines(s)) + Rest(s) == s
    ensures AllPlain(Lines(s))
  {
    if s != [] {
      var t, b := s[..|s| - 1], s[|s| - 1];
      LinesAndRest(t);
      assert s == t + [b];
      if b == NEWLINE { RawSnoc(Lines(t), Rest(t)); }
    }
  }

  predicate Plain(line: seq<u8>)
  {
    forall i :: 0 <= i < |line| ==> line[i] != NEWLINE
  }

  predicate AllPlain(lines: seq<seq<u8>>)
  {
    forall i :: 0 <= i < |lines| ==> Plain(lines[i])
  }

  lemma {:induction false} CutRest(s: seq<u8>, rest: seq<u8>)
    requires Plain(rest)
    ensures Lines(s + rest) == Lines(s) && Rest(s + rest) == Rest(s) + rest
  {
    if rest == [] {
      assert s + rest == s;
    } else {
      CutRest(s, rest[..|rest| - 1]);
      CutMore(s, rest[..|rest| - 1], rest[|rest| - 1], rest);
    }
  }

  lemma CutMore(s: seq<u8>, short: seq<u8>, b: u8, rest: seq<u8>)
    requires rest == short + [b] && b != NEWLINE && Lines(s + short) == Lines(s) && Rest(s + short) == Rest(s) + short
    ensures Lines(s + rest) == Lines(s) && Rest(s + rest) == Rest(s) + rest
  {
    CutSnoc(s + short, b);
    Together(s, short, [b], rest);
    Together(Rest(s), short, [b], rest);
  }

  lemma {:induction false} CutLines(lines: seq<seq<u8>>)
    requires AllPlain(lines)
    ensures Lines(Raw(lines)) == lines && Rest(Raw(lines)) == []
  {
    if lines != [] {
      var was, line := lines[..|lines| - 1], lines[|lines| - 1];
      CutLines(was);
      CutRest(Raw(was), line);
      assert [] + line == line;
      CutSnoc(Raw(was) + line, NEWLINE);
      assert lines == was + [line];
      RawSnoc(was, line);
    }
  }

  /** And is the only way to: lines without newlines inside, and a rest without one. */
  lemma CutOnce(lines: seq<seq<u8>>, rest: seq<u8>)
    requires Plain(rest) && AllPlain(lines)
    ensures Lines(Raw(lines) + rest) == lines && Rest(Raw(lines) + rest) == rest
  {
    CutLines(lines);
    CutRest(Raw(lines), rest);
  }

  lemma CutSnoc(s: seq<u8>, b: u8)
    ensures b == NEWLINE ==> Lines(s + [b]) == Lines(s) + [Rest(s)] && Rest(s + [b]) == []
    ensures b != NEWLINE ==> Lines(s + [b]) == Lines(s) && Rest(s + [b]) == Rest(s) + [b]
  {
    assert (s + [b])[..|s|] == s;
  }

  lemma {:induction false} RawConcat(a: seq<seq<u8>>, b: seq<seq<u8>>)
    ensures Raw(a + b) == Raw(a) + Raw(b)
  {
    if b == [] {
      assert a + b == a;
    } else {
      var was, line := b[..|b| - 1], b[|b| - 1];
      assert a + b == (a + was) + [line] && b == was + [line];
      RawConcat(a, was);
      RawSnoc(a + was, line);
      RawSnoc(was, line);
    }
  }

  /** Lines taken off the front of a stream are the first of its lines. */
  lemma FirstLines(s: seq<u8>, lines: seq<seq<u8>>, left: seq<u8>)
    requires s == Raw(lines) + left && AllPlain(lines)
    ensures FirstOf(lines, s)
  {
    var more, rest := Lines(left), Rest(left);
    LinesAndRest(left);
    RawConcat(lines, more);
    CutOnce(lines + more, rest);
    Together(Raw(lines), Raw(more), rest, left);
  }

  lemma Together(a: seq<u8>, b: seq<u8>, c: seq<u8>, d: seq<u8>)
    requires d == b + c
    ensures a + d == a + b + c
  {
  }

  // ----- The reader -----

  datatype Read = Bytes(bytes: seq<u8>) | Closed | Pause | Failed

  /** The socket: what each read will come to, a pause for ever after. */
  class Socket {
    var script: seq<Read>

    ghost predicate Valid()
      reads this
    {
      forall r :: r in script && r.Bytes? ==> 0 < |r.bytes| <= CHUNK
    }

    method Next() returns (r: Read)
      requires Valid()
      modifies this
      ensures Valid() && (r.Bytes? ==> 0 < |r.bytes| <= CHUNK)
      ensures if old(script) == [] then r == Pause && script == [] else r == old(script)[0] && script == old(script)[1..]
    {
      if script == [] { return Pause; }
      r := script[0];
      assert r in script;
      assert forall x :: x in script[1..] ==> x in script;
      script := script[1..];
    }
  }

  /** The bytes of a run of reads. */
  function BytesOf(script: seq<Read>): seq<u8>
  {
    if script == [] then []
    else
      var r := script[|script| - 1];
      BytesOf(script[..|script| - 1]) + if r.Bytes? then r.bytes else []
  }

  lemma BytesSnoc(script: seq<Read>, n: nat)
    requires n < |script|
    ensures BytesOf(script[..n + 1]) == BytesOf(script[..n]) + if script[n].Bytes? then script[n].bytes else []
  {
    assert script[..n + 1][..n] == script[..n];
  }

  /** The reads from `script` to `script'` brought what is new in `received'`. */
  ghost predicate Consumed(script: seq<Read>, received: seq<u8>, script': seq<Read>, received': seq<u8>)
  {
    exists n :: 0 <= n <= |script| && script' == script[n..] && received' == received + BytesOf(script[..n])
  }

  lemma ConsumedMore(script: seq<Read>, received: seq<u8>, script': seq<Read>, received': seq<u8>)
    requires Consumed(script, received, script', received') && script' != []
    ensures Consumed(script, received, script'[1..], received' + if script'[0].Bytes? then script'[0].bytes else [])
  {
    var n :| 0 <= n <= |script| && script' == script[n..] && received' == received + BytesOf(script[..n]);
    var more := if script'[0].Bytes? then script'[0].bytes else [];
    BytesSnoc(script, n);
    Together(received, BytesOf(script[..n]), more, BytesOf(script[..n + 1]));
    ConsumedTo(script, received, n + 1, script'[1..], received' + more);
  }

  lemma ConsumedTo(script: seq<Read>, received: seq<u8>, n: nat, script': seq<Read>, received': seq<u8>)
    requires n <= |script| && script' == script[n..] && received' == received + BytesOf(script[..n])
    ensures Consumed(script, received, script', received')
  {
  }

  /** `lines` are the first lines of the stream. */
  ghost predicate FirstOf(lines: seq<seq<u8>>, stream: seq<u8>)
  {
    |lines| <= |Lines(stream)| && lines == Lines(stream)[..|lines|]
  }

  datatype Outcome = Line(line: seq<u8>) | Nothing | TooLong | Lost

  /** A line without the one return its sender may have put before the newline. */
  function Trimmed(line: seq<u8>): seq<u8>
  {
    if line != [] && line[|line| - 1] == RETURN then line[..|line| - 1] else line
  }

  /** A line reads the same whether its sender ends it with a newline or with return and newline. */
  lemma EndingsAlike(line: seq<u8>)
    requires line != [] ==> line[|line| - 1] != RETURN
    ensures Trimmed(line) == line && Trimmed(line + [RETURN]) == line
  {
  }

  /** The first newline, or the end. */
  function FirstNewline(buf: seq<u8>): (pos: nat)
    ensures pos <= |buf| && Plain(buf[..pos]) && (pos < |buf| ==> buf[pos] == NEWLINE)
  {
    if buf == [] || buf[0] == NEWLINE then 0
    else
      var pos := 1 + FirstNewline(buf[1..]);
      assert buf[..pos] == [buf[0]] + buf[1..][..pos - 1];
      pos
  }

  /** One call: what comes of it, the buffer after it, and the reads not yet made. */
  function Next(buf: seq<u8>, script: seq<Read>): (r: (Outcome, seq<u8>, seq<Read>))
    ensures r.0.Nothing? && script != [] ==> |r.2| < |script|
    ensures r.0.Line? ==> |r.2| < |script| || (r.2 == script && |r.1| < |buf|)
    decreases |script|
  {
    var pos := FirstNewline(buf);
    if pos < |buf| then (Line(Trimmed(buf[..pos])), buf[pos + 1..], script)
    else if |buf| > MAX_LINE_BYTES then (TooLong, buf, script)
    else if script == [] then (Nothing, buf, [])
    else match script[0]
      case Bytes(bytes) => Next(buf + bytes, script[1..])
      case Pause => (Nothing, buf, script[1..])
      case _ => (Lost, buf, script[1..])
  }

  // ----- Long lines -----

  /** No line of the stream, complete or not, is longer than the limit. */
  ghost predicate ShortLines(s: seq<u8>)
  {
    (forall line :: line in Lines(s) ==> |line| <= MAX_LINE_BYTES) && |Rest(s)| <= MAX_LINE_BYTES
  }

  lemma ShortBefore(s: seq<u8>, b: u8)
    requires ShortLines(s + [b])
    ensures ShortLines(s)
  {
    CutSnoc(s, b);
    if b == NEWLINE { assert Rest(s) in Lines(s) + [Rest(s)]; }
  }

  /** With lines up to the limit nothing that has arrived so far looks too long, however it arrived. */
  lemma {:induction false} ShortLinesNeverRefused(s: seq<u8>, t: seq<u8>)
    requires ShortLines(s + t)
    ensures |Rest(s)| <= MAX_LINE_BYTES
  {
    if t == [] {
      assert s + t == s;
    } else {
      var short := t[..|t| - 1];
      assert s + t == (s + short) + [t[|t| - 1]];
      ShortBefore(s + short, t[|t| - 1]);
      ShortLinesNeverRefused(s, short);
    }
  }

  lemma NeverShort(s: seq<u8>)
    requires |Rest(s)| > MAX_LINE_BYTES
    ensures forall t :: !ShortLines(s + t)
  {
    forall t | ShortLines(s + t) ensures false { ShortLinesNeverRefused(s, t); }
  }

  lemma {:induction false} NoNewline(line: seq<u8>)
    requires Plain(line)
    ensures FirstNewline(line) == |line|
  {
    if line != [] { NoNewline(line[1..]); }
  }

  lemma {:induction false} FoundNewline(line: seq<u8>, rest: seq<u8>)
    requires Plain(line)
    ensures var buf := line + [NEWLINE] + rest;
      FirstNewline(buf) == |line| && buf[..|line|] == line && buf[|line| + 1..] == rest
  {
    if line != [] {
      FoundNewline(line[1..], rest);
      assert (line + [NEWLINE] + rest)[1..] == line[1..] + [NEWLINE] + rest;
    }
  }

  // ----- One line, every way it can arrive -----

  /** Calls until one comes to something: what it is, the buffer after it, and the reads not yet made. */
  function Await(buf: seq<u8>, script: seq<Read>): (r: (Outcome, seq<u8>, seq<Read>))
    ensures r.0.Line? ==> |r.2| < |script| || (r.2 == script && |r.1| < |buf|)
    decreases |script|
  {
    var (r, held, left) := Next(buf, script);
    if r.Nothing? && script != [] then Await(held, left) else (r, held, left)
  }

  /** What becomes of the first line. */
  function Fate(buf: seq<u8>, script: seq<Read>): Outcome
  {
    Await(buf, script).0
  }

  /** The reads bring these bytes in pieces of 1 to CHUNK, with any pauses in between. */
  ghost predicate Brings(script: seq<Read>, bytes: seq<u8>)
  {
    && (forall r :: r in script ==> r.Pause? || (r.Bytes? && 0 < |r.bytes| <= CHUNK))
    && BytesOf(script) == bytes
  }

  ghost predicate SameFate(buf: seq<u8>, bytes: seq<u8>)
  {
    forall a, b :: Brings(a, bytes) && Brings(b, bytes) ==> Fate(buf, a) == Fate(buf, b)
  }

  /**
   A line of which `buf` has arrived, and anything behind it. How the rest
   arrives makes no difference if and only if the line is within the limit,
   and then it is delivered, or over it by a whole read, and then it is
   refused. For every length in between there are reads that deliver it and
   reads that have it refused.
   */
  lemma FateOfALine(buf: seq<u8>, line: seq<u8>, t: seq<u8>)
    requires Plain(line) && buf <= line && |buf| <= MAX_LINE_BYTES
    ensures var bytes := line[|buf|..] + [NEWLINE] + t;
      && (SameFate(buf, bytes) <==> |line| <= MAX_LINE_BYTES || |line| >= MAX_LINE_BYTES + CHUNK)
      && (|line| <= MAX_LINE_BYTES ==> forall s :: Brings(s, bytes) ==> Fate(buf, s) == Line(Trimmed(line)))
      && (|line| >= MAX_LINE_BYTES + CHUNK ==> forall s :: Brings(s, bytes) ==> Fate(buf, s) == TooLong)
      && (MAX_LINE_BYTES < |line| < MAX_LINE_BYTES + CHUNK ==>
            && (exists s :: Brings(s, bytes) && Fate(buf, s) == Line(Trimmed(line)))
            && (exists s :: Brings(s, bytes) && Fate(buf, s) == TooLong))
  {
    var bytes := line[|buf|..] + [NEWLINE] + t;
    if |line| <= MAX_LINE_BYTES || |line| >= MAX_LINE_BYTES + CHUNK {
      forall s | Brings(s, bytes)
        ensures Fate(buf, s) == if |line| <= MAX_LINE_BYTES then Line(Trimmed(line)) else TooLong
      {
        Rejoined(buf, line, t);
        Settled(buf, s, line, t);
      }
    } else {
      var good := Delivering(buf, line, t);
      var bad := Refusing(buf, line, t);
      assert Fate(buf, good) != Fate(buf, bad);
    }
  }

  lemma Rejoined(buf: seq<u8>, line: seq<u8>, t: seq<u8>)
    requires buf <= line
    ensures buf + (line[|buf|..] + [NEWLINE] + t) == line + [NEWLINE] + t
  {
  }

  /** Outside the lengths in between, by the reads still to come; behind a line delivered the rest of the stream is left. */
  lemma {:induction false} Settled(buf: seq<u8>, script: seq<Read>, line: seq<u8>, t: seq<u8>)
    requires Plain(line) && Brings(script, BytesOf(script)) && buf + BytesOf(script) == line + [NEWLINE] + t
    requires |buf| <= MAX_LINE_BYTES + CHUNK && (|line| <= MAX_LINE_BYTES || |line| >= MAX_LINE_BYTES + CHUNK)
    ensures Fate(buf, script) == if |line| <= MAX_LINE_BYTES then Line(Trimmed(line)) else TooLong
    ensures |line| <= MAX_LINE_BYTES ==> LeavesBehind(Await(buf, script), t)
    decreases |script|
  {
    if |buf| > |line| {
      Complete(buf, BytesOf(script), line, t);
      FoundNewline(line, buf[|line| + 1..]);
    } else {
      PartOf(buf, BytesOf(script), line, t);
      NoNewline(buf);
      if |buf| <= MAX_LINE_BYTES {
        BytesFirst(script);
        FateStep(buf, script);
        assert forall r :: r in script[1..] ==> r in script;
        assert script[0] in script;
        if script[0].Bytes? {
          Together(buf, script[0].bytes, BytesOf(script[1..]), BytesOf(script));
          Settled(buf + script[0].bytes, script[1..], line, t);
        } else {
          Settled(buf, script[1..], line, t);
        }
      }
    }
  }

  ghost predicate LeavesBehind(r: (Outcome, seq<u8>, seq<Read>), t: seq<u8>)
  {
    |r.1| <= MAX_LINE_BYTES + CHUNK && Brings(r.2, BytesOf(r.2)) && r.1 + BytesOf(r.2) == t
  }

  lemma Complete(buf: seq<u8>, more: seq<u8>, line: seq<u8>, t: seq<u8>)
    requires buf + more == line + [NEWLINE] + t && |buf| > |line|
    ensures buf == line + [NEWLINE] + buf[|line| + 1..] && buf[|line| + 1..] + more == t
  {
    assert t == (buf + more)[|line| + 1..];
    assert buf == (buf + more)[..|buf|];
    assert (line + [NEWLINE] + t)[..|line|] == line;
  }

  lemma PartOf(buf: seq<u8>, more: seq<u8>, line: seq<u8>, t: seq<u8>)
    requires buf + more == line + [NEWLINE] + t && |buf| <= |line| && Plain(line)
    ensures buf <= line && Plain(buf) && more != []
  {
    assert |more| == |line| + 1 + |t| - |buf|;
    assert buf == (buf + more)[..|buf|] == (line + [NEWLINE] + t)[..|buf|];
    assert (line + [NEWLINE] + t)[..|buf|] == line[..|buf|];
  }

  /** With no line complete and none too long the next read is made. */
  lemma FateStep(buf: seq<u8>, script: seq<Read>)
    requires Plain(buf) && |buf| <= MAX_LINE_BYTES && script != []
    ensures script[0].Bytes? ==> Await(buf, script) == Await(buf + script[0].bytes, script[1..])
    ensures script[0].Pause? ==> Await(buf, script) == Await(buf, script[1..])
  {
    NoNewline(buf);
    if script[0].Bytes? && script[1..] == [] {
      var more := buf + script[0].bytes;
      assert Next(buf, script) == Next(more, []);
      NothingLeft(more);
    }
  }

  lemma NothingLeft(buf: seq<u8>)
    ensures var (r, held, left) := Next(buf, []); left == [] && (r.Nothing? ==> held == buf)
  {
  }

  lemma BytesFirst(script: seq<Read>)
    requires script != []
    ensures BytesOf(script) == (if script[0].Bytes? then script[0].bytes else []) + BytesOf(script[1..])
  {
    BytesConcat(script[..1], script[1..]);
    assert script[..1] + script[1..] == script;
    assert script[..1][..0] == [];
  }

  lemma {:induction false} BytesConcat(a: seq<Read>, b: seq<Read>)
    ensures BytesOf(a + b) == BytesOf(a) + BytesOf(b)
  {
    if b == [] {
      assert a + b == a;
    } else {
      var was, r := b[..|b| - 1], b[|b| - 1];
      assert (a + b)[..|a + b| - 1] == a + was;
      BytesConcat(a, was);
      Together(BytesOf(a), BytesOf(was), if r.Bytes? then r.bytes else [], BytesOf(b));
    }
  }

  /** A byte a read. */
  function OneByOne(bytes: seq<u8>): (script: seq<Read>)
  {
    if bytes == [] then [] else [Bytes(bytes[..1])] + OneByOne(bytes[1..])
  }

  lemma {:induction false} OneByOneBrings(bytes: seq<u8>)
    ensures Brings(OneByOne(bytes), bytes)
  {
    if bytes != [] {
      OneByOneBrings(bytes[1..]);
      BytesConcat([Bytes(bytes[..1])], OneByOne(bytes[1..]));
      assert BytesOf([Bytes(bytes[..1])]) == [] + bytes[..1];
      assert bytes[..1] + bytes[1..] == bytes;
    }
  }

  lemma BringsBoth(a: seq<Read>, x: seq<u8>, b: seq<Read>, y: seq<u8>)
    requires Brings(a, x) && Brings(b, y)
    ensures Brings(a + b, x + y)
  {
    BytesConcat(a, b);
  }

  lemma BringsOne(bytes: seq<u8>)
    requires 0 < |bytes| <= CHUNK
    ensures Brings([Bytes(bytes)], bytes)
  {
    assert [] + bytes == bytes;
  }

  /** Up to the limit a byte a read changes nothing yet. */
  lemma {:induction false} OneByOneUpTo(buf: seq<u8>, more: seq<u8>, rest: seq<Read>)
    requires Plain(buf) && Plain(more) && |buf| + |more| <= MAX_LINE_BYTES
    ensures Await(buf, OneByOne(more) + rest) == Await(buf + more, rest)
    decreases |more|
  {
    if more == [] {
      assert buf + more == buf && OneByOne(more) + rest == rest;
    } else {
      var script := OneByOne(more) + rest;
      assert script[1..] == OneByOne(more[1..]) + rest;
      FateStep(buf, script);
      Together(buf, more[..1], more[1..], more);
      OneByOneUpTo(buf + more[..1], more[1..], rest);
    }
  }

  /** A byte a read up to the limit, then `rest`. */
  lemma UpToTheLimit(buf: seq<u8>, line: seq<u8>, t: seq<u8>, rest: seq<Read>) returns (s: seq<Read>)
    requires Plain(line) && buf <= line && |buf| <= MAX_LINE_BYTES < |line|
    requires Brings(rest, line[MAX_LINE_BYTES..] + [NEWLINE] + t)
    ensures Brings(s, line[|buf|..] + [NEWLINE] + t) && Fate(buf, s) == Fate(line[..MAX_LINE_BYTES], rest)
  {
    var first := line[|buf|..MAX_LINE_BYTES];
    s := OneByOne(first) + rest;
    OneByOneBrings(first);
    BringsBoth(OneByOne(first), first, rest, line[MAX_LINE_BYTES..] + [NEWLINE] + t);
    CutAt(buf, line, t, MAX_LINE_BYTES);
    OneByOneUpTo(buf, first, rest);
  }

  lemma CutAt(buf: seq<u8>, line: seq<u8>, t: seq<u8>, m: nat)
    requires buf <= line && |buf| <= m <= |line|
    ensures line[|buf|..m] + (line[m..] + [NEWLINE] + t) == line[|buf|..] + [NEWLINE] + t
    ensures buf + line[|buf|..m] == line[..m]
  {
  }

  /** The rest of the line in one read. */
  lemma Delivering(buf: seq<u8>, line: seq<u8>, t: seq<u8>) returns (s: seq<Read>)
    requires Plain(line) && buf <= line && |buf| <= MAX_LINE_BYTES < |line| < MAX_LINE_BYTES + CHUNK
    ensures Brings(s, line[|buf|..] + [NEWLINE] + t) && Fate(buf, s) == Line(Trimmed(line))
  {
    var last := line[MAX_LINE_BYTES..] + [NEWLINE];
    var rest := [Bytes(last)] + OneByOne(t);
    OneByOneBrings(t);
    BringsOne(last);
    BringsBoth([Bytes(last)], last, OneByOne(t), t);
    s := UpToTheLimit(buf, line, t, rest);
    LastRead(line, MAX_LINE_BYTES, rest);
  }

  lemma LastRead(line: seq<u8>, m: nat, rest: seq<Read>)
    requires Plain(line) && m <= |line| && m <= MAX_LINE_BYTES && rest != [] && rest[0] == Bytes(line[m..] + [NEWLINE])
    ensures Fate(line[..m], rest) == Line(Trimmed(line))
  {
    FateStep(line[..m], rest);
    assert line[..m] + rest[0].bytes == line + [NEWLINE] + [];
    FoundNewline(line, []);
  }

  /** A byte a read throughout. */
  lemma Refusing(buf: seq<u8>, line: seq<u8>, t: seq<u8>) returns (s: seq<Read>)
    requires Plain(line) && buf <= line && |buf| <= MAX_LINE_BYTES < |line|
    ensures Brings(s, line[|buf|..] + [NEWLINE] + t) && Fate(buf, s) == TooLong
  {
    var last := line[MAX_LINE_BYTES..] + [NEWLINE] + t;
    OneByOneBrings(last);
    s := UpToTheLimit(buf, line, t, OneByOne(last));
    OneTooMany(line, MAX_LINE_BYTES, last);
  }

  lemma OneTooMany(line: seq<u8>, m: nat, last: seq<u8>)
    requires Plain(line) && m == MAX_LINE_BYTES < |line| && last != [] && last[0] == line[m]
    ensures Fate(line[..m], OneByOne(last)) == TooLong
  {
    FateStep(line[..m], OneByOne(last));
    assert line[..m] + last[..1] == line[..m + 1];
    NoNewline(line[..m + 1]);
  }

  // ----- A whole stream, every way it can arrive -----

  /** What all the calls come to: the lines delivered, and how it ended if it did. */
  function Outcomes(buf: seq<u8>, script: seq<Read>): (out: seq<Outcome>)
    decreases |script|, |buf|
  {
    var (r, held, left) := Await(buf, script);
    if r.Line? then [r] + Outcomes(held, left) else if r.Nothing? then [] else [r]
  }

  /** The lines up to the first one over the limit, and its refusal. */
  function Expected(s: seq<u8>): (out: seq<Outcome>)
    decreases |s|
  {
    var p := FirstNewline(s);
    if p > MAX_LINE_BYTES then [TooLong]
    else if p == |s| then []
    else [Line(Trimmed(s[..p]))] + Expected(s[p + 1..])
  }

  /** The first complete line over the limit, if there is one, is over it by a whole read. */
  predicate ClearCut(s: seq<u8>)
    decreases |s|
  {
    var p := FirstNewline(s);
    p == |s| || (if p <= MAX_LINE_BYTES then ClearCut(s[p + 1..]) else p >= MAX_LINE_BYTES + CHUNK)
  }

  ghost predicate SameOutcomes(stream: seq<u8>)
  {
    forall a, b :: Brings(a, stream) && Brings(b, stream) ==> Outcomes([], a) == Outcomes([], b)
  }

  /**
   What a connection comes to does not depend on how its bytes arrive if and
   only if the first complete line over the limit, if there is one, is over it
   by a whole read; and then it is the lines before the first one over the
   limit, complete or not, and its refusal.
   */
  lemma OutcomesOfAStream(stream: seq<u8>)
    ensures SameOutcomes(stream) <==> ClearCut(stream)
    ensures ClearCut(stream) ==> forall s :: Brings(s, stream) ==> Outcomes([], s) == Expected(stream)
  {
    if ClearCut(stream) {
      forall s | Brings(s, stream) ensures Outcomes([], s) == Expected(stream) {
        assert [] + stream == stream;
        AllSettled([], s, stream);
      }
    } else {
      var a, b := TwoWays(stream);
      assert Outcomes([], a) != Outcomes([], b);
    }
  }

  lemma {:induction false} AllSettled(buf: seq<u8>, script: seq<Read>, stream: seq<u8>)
    requires |buf| <= MAX_LINE_BYTES + CHUNK && Brings(script, BytesOf(script)) && buf + BytesOf(script) == stream
    requires ClearCut(stream)
    ensures Outcomes(buf, script) == Expected(stream)
    decreases |script|, |buf|
  {
    var p := FirstNewline(stream);
    if p == |stream| {
      Unfinished(buf, script, stream);
    } else {
      var line, t := stream[..p], stream[p + 1..];
      assert stream == line + [NEWLINE] + t;
      Settled(buf, script, line, t);
      if p <= MAX_LINE_BYTES {
        var (_, held, left) := Await(buf, script);
        AllSettled(held, left, t);
      }
    }
  }

  /** Without a newline everything is read, unless it is refused before. */
  lemma {:induction false} Unfinished(buf: seq<u8>, script: seq<Read>, rest: seq<u8>)
    requires Brings(script, BytesOf(script)) && buf + BytesOf(script) == rest && Plain(rest)
    ensures Fate(buf, script) == if |rest| > MAX_LINE_BYTES then TooLong else Nothing
    decreases |script|
  {
    assert buf == rest[..|buf|];
    NoNewline(buf);
    if |buf| <= MAX_LINE_BYTES && script != [] {
      FateStep(buf, script);
      BytesFirst(script);
      assert forall r :: r in script[1..] ==> r in script;
      assert script[0] in script;
      if script[0].Bytes? {
        Together(buf, script[0].bytes, BytesOf(script[1..]), BytesOf(script));
        Unfinished(buf + script[0].bytes, script[1..], rest);
      } else {
        Unfinished(buf, script[1..], rest);
      }
    }
  }

  /** A stream that is not clear-cut comes to one thing or another. */
  lemma {:induction false} TwoWays(stream: seq<u8>) returns (a: seq<Read>, b: seq<Read>)
    requires !ClearCut(stream)
    ensures Brings(a, stream) && Brings(b, stream) && Outcomes([], a) != Outcomes([], b)
    decreases |stream|
  {
    var p := FirstNewline(stream);
    var line, t := stream[..p], stream[p + 1..];
    assert stream == line + [NEWLINE] + t;
    if p > MAX_LINE_BYTES {
      var none: seq<u8> := [];
      assert line[|none|..] == line;
      a := Delivering(none, line, t);
      b := Refusing(none, line, t);
      assert Outcomes(none, a)[0] == Fate(none, a) && Outcomes(none, b)[0] == Fate(none, b);
    } else {
      var a', b' := TwoWays(t);
      OneLineFirst(line, a', t);
      OneLineFirst(line, b', t);
      a, b := OneByOne(line) + [Bytes([NEWLINE])] + a', OneByOne(line) + [Bytes([NEWLINE])] + b';
      assert Outcomes([], a)[1..] == Outcomes([], a') && Outcomes([], b)[1..] == Outcomes([], b');
    }
  }

  /** A line within the limit read a byte at a time, then what `rest` brings. */
  lemma OneLineFirst(line: seq<u8>, rest: seq<Read>, t: seq<u8>)
    requires Plain(line) && |line| <= MAX_LINE_BYTES && Brings(rest, t)
    ensures var s := OneByOne(line) + [Bytes([NEWLINE])] + rest;
      Brings(s, line + [NEWLINE] + t) && Outcomes([], s) == [Line(Trimmed(line))] + Outcomes([], rest)
  {
    OneByOneBrings(line);
    BringsOne([NEWLINE]);
    BringsBoth(OneByOne(line), line, [Bytes([NEWLINE])], [NEWLINE]);
    BringsBoth(OneByOne(line) + [Bytes([NEWLINE])], line + [NEWLINE], rest, t);
    LineAwaited(line, rest, OneByOne(line) + [Bytes([NEWLINE])] + rest);
  }

  lemma LineAwaited(line: seq<u8>, rest: seq<Read>, s: seq<Read>)
    requires Plain(line) && |line| <= MAX_LINE_BYTES && s == OneByOne(line) + [Bytes([NEWLINE])] + rest
    ensures Await([], s) == (Line(Trimmed(line)), [], rest)
  {
    var none: seq<u8>, more := [], [Bytes([NEWLINE])] + rest;
    Grouped(OneByOne(line), [Bytes([NEWLINE])], rest);
    OneByOneUpTo(none, line, more);
    assert none + line == line;
    NewlineAwaited(line, rest, more);
  }

  lemma Grouped(a: seq<Read>, b: seq<Read>, c: seq<Read>)
    ensures a + b + c == a + (b + c)
  {
  }

  lemma NewlineAwaited(line: seq<u8>, rest: seq<Read>, more: seq<Read>)
    requires Plain(line) && |line| <= MAX_LINE_BYTES && more == [Bytes([NEWLINE])] + rest
    ensures Await(line, more) == (Line(Trimmed(line)), [], rest)
  {
    FateStep(line, more);
    assert more[1..] == rest;
    assert line + [NEWLINE] == line + [NEWLINE] + [];
    FoundNewline(line, []);
  }

  class Receiver {
    var buf: seq<u8>
    /** Every byte read so far, and every line delivered, without its newline. */
    ghost var received: seq<u8>
    ghost var delivered: seq<seq<u8>>

    /** What was delivered and what is held are what was read; the buffer stays bounded. */
    ghost predicate Valid()
      reads this
    {
      && received == Raw(delivered) + buf
      && AllPlain(delivered)
      && |buf| <= MAX_LINE_BYTES + CHUNK
    }

    constructor ()
      ensures Valid() && received == [] && delivered == []
    {
      buf, received, delivered := [], [], [];
    }

    /** `buf.iter().position(newline)`. */
    method Find() returns (pos: nat)
      ensures pos == FirstNewline(buf)
    {
      pos := 0;
      while pos < |buf| && buf[pos] != NEWLINE
        invariant pos <= |buf| && pos + FirstNewline(buf[pos..]) == FirstNewline(buf)
      {
        assert buf[pos..][1..] == buf[pos + 1..];
        pos := pos + 1;
      }
    }

    /** Take the first line off the buffer. */
    method Take(pos: nat) returns (line: seq<u8>)
      requires Valid() && pos < |buf| && buf[pos] == NEWLINE && Plain(buf[..pos])
      modifies this
      ensures Valid() && received == old(received)
      ensures line == Trimmed(old(buf[..pos])) && delivered == old(delivered) + [old(buf[..pos])]
      ensures buf == old(buf[pos + 1..])
    {
      line := buf[..pos];
      RawSnoc(delivered, line);
      assert buf == line + [NEWLINE] + buf[pos + 1..];
      assert received == (Raw(delivered) + line + [NEWLINE]) + buf[pos + 1..];
      buf := buf[pos + 1..];
      delivered := delivered + [line];
      if line != [] && line[|line| - 1] == RETURN { line := line[..|line| - 1]; }
    }

    /** One read, added to the buffer if it brings bytes. */
    method Receive(socket: Socket) returns (read: Read)
      requires Valid() && socket.Valid() && |buf| <= MAX_LINE_BYTES
      modifies this, socket
      ensures Valid() && socket.Valid() && delivered == old(delivered)
      ensures old(socket.script) == [] ==> read == Pause && socket.script == [] && received == old(received)
      ensures old(socket.script) != [] ==>
        && read == old(socket.script)[0] && socket.script == old(socket.script)[1..]
        && received == old(received) + (if read.Bytes? then read.bytes else [])
      ensures !read.Bytes? ==> received == old(received) && buf == old(buf)
      ensures read.Bytes? ==> buf == old(buf) + read.bytes
    {
      read := socket.Next();
      if read.Bytes? {
        assert Raw(delivered) + (buf + read.bytes) == received + read.bytes;
        buf, received := buf + read.bytes, received + read.bytes;
      }
    }

    /** One turn of the loop: a line, an end of the call, or more bytes. */
    method Turn(socket: Socket) returns (r: Option<Outcome>)
      requires Valid() && socket.Valid()
      modifies this, socket
      ensures Valid() && socket.Valid() && Came(r, old(delivered), delivered, buf)
      ensures Moved(r, old(buf), old(socket.script), old(received), buf, socket.script, received)
    {
      var pos := Find();
      if pos < |buf| {
        var line := Take(pos);
        return Some(Line(line));
      }
      assert buf[..pos] == buf;
      if |buf| > MAX_LINE_BYTES { return Some(TooLong); }
      var read := Receive(socket);
      if read.Closed? || read.Failed? { return Some(Lost); }
      if read.Pause? { return Some(Nothing); }
      return None;
    }

    /**
     However the stream was cut up on its way: what has been delivered is the
     first of its lines, all of them when nothing complete is left. A line is
     refused when it is too long so far and its newline has not come; with lines
     up to the limit none ever is.
     */
    method NextLine(socket: Socket) returns (r: Outcome)
      requires Valid() && socket.Valid()
      modifies this, socket
      ensures Valid() && socket.Valid() && FirstOf(delivered, received)
      ensures Consumed(old(socket.script), old(received), socket.script, received)
      ensures r.Line? ==> delivered != [] && delivered[..|delivered| - 1] == old(delivered)
                          && r.line == Trimmed(delivered[|delivered| - 1])
      ensures !r.Line? ==> delivered == old(delivered) && delivered == Lines(received) && buf == Rest(received)
      ensures r.TooLong? <==> !r.Line? && |Rest(received)| > MAX_LINE_BYTES
      ensures r.TooLong? ==> forall t :: !ShortLines(received + t)
      ensures (r, buf, socket.script) == Next(old(buf), old(socket.script))
    {
      r := Loop(socket);
      FirstLines(received, delivered, buf);
      if !r.Line? {
        CutOnce(delivered, buf);
        if r.TooLong? { NeverShort(received); }
      }
    }

    method Loop(socket: Socket) returns (r: Outcome)
      requires Valid() && socket.Valid()
      modifies this, socket
      ensures Valid() && socket.Valid() && Came(Some(r), old(delivered), delivered, buf)
      ensures Consumed(old(socket.script), old(received), socket.script, received)
      ensures (r, buf, socket.script) == Next(old(buf), old(socket.script))
    {
      NoneConsumed(socket.script, received);
      var turn: Option<Outcome> := None;
      while turn.None?
        invariant Valid() && socket.Valid()
        invariant Consumed(old(socket.script), old(received), socket.script, received)
        invariant if turn.None? then delivered == old(delivered) else Came(turn, old(delivered), delivered, buf)
        invariant NextIs(turn, buf, socket.script, old(buf), old(socket.script))
        decreases turn.None?, |socket.script|
      {
        ghost var b, s, c := buf, socket.script, received;
        turn := Turn(socket);
        MovedOn(turn, b, s, c, buf, socket.script, received, old(socket.script), old(received));
        NextMoves(turn, b, s, c, buf, socket.script, received, old(buf), old(socket.script));
      }
      r := turn.value;
    }
  }

  /** What a turn delivered: a line, or nothing, and then no line in the buffer is complete when the call ends. */
  ghost predicate Came(r: Option<Outcome>, before: seq<seq<u8>>, after: seq<seq<u8>>, buf: seq<u8>)
  {
    if r.Some? && r.value.Line? then
      after != [] && after[..|after| - 1] == before && r.value.line == Trimmed(after[|after| - 1])
    else
      after == before && (r.Some? ==> Plain(buf) && (r.value.TooLong? <==> |buf| > MAX_LINE_BYTES))
  }

  ghost predicate NextIs(r: Option<Outcome>, buf: seq<u8>, script: seq<Read>, buf0: seq<u8>, script0: seq<Read>)
  {
    Next(buf0, script0) == if r.None? then Next(buf, script) else (r.value, buf, script)
  }

  lemma NextMoves(r: Option<Outcome>, buf: seq<u8>, script: seq<Read>, received: seq<u8>,
                  buf': seq<u8>, script': seq<Read>, received': seq<u8>, buf0: seq<u8>, script0: seq<Read>)
    requires Moved(r, buf, script, received, buf', script', received') && NextIs(None, buf, script, buf0, script0)
    ensures NextIs(r, buf', script', buf0, script0)
  {
  }

  /** One turn as a step of `Next`: bytes taken, or the call's result. */
  ghost predicate Moved(r: Option<Outcome>, buf: seq<u8>, script: seq<Read>, received: seq<u8>,
                        buf': seq<u8>, script': seq<Read>, received': seq<u8>)
  {
    if r.None? then
      && script != [] && script[0].Bytes? && script' == script[1..] && received' == received + script[0].bytes
      && Next(buf, script) == Next(buf', script')
    else
      && Next(buf, script) == (r.value, buf', script')
      && received' == received && (script' == script || (script != [] && !script[0].Bytes? && script' == script[1..]))
  }

  lemma MovedOn(r: Option<Outcome>, buf: seq<u8>, script: seq<Read>, received: seq<u8>,
                buf': seq<u8>, script': seq<Read>, received': seq<u8>, first: seq<Read>, start: seq<u8>)
    requires Moved(r, buf, script, received, buf', script', received') && Consumed(first, start, script, received)
    ensures Consumed(first, start, script', received')
  {
    if script' != script {
      ConsumedMore(first, start, script, received);
      assert received + [] == received;
    }
  }

  lemma NoneConsumed(script: seq<Read>, received: seq<u8>)
    ensures Consumed(script, received, script, received)
  {
    assert script[0..] == script && script[..0] == [] && received + [] == received;
  }
}
