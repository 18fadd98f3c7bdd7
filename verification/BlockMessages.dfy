/** Messages of binary blocks from a serial line: each block is announced by a sign, the number of digits
    of its size, and the size; a newline ends the message. */
module BlockMessages {
  import opened Basics
  import opened Decimals

  // ---- The serial line ----

  /** One round of waiting and reading: up to so many bytes are there, or none in time, or an error. */
  datatype Round = Ready(bytes: nat) | Timeout | Error

  /** The bytes still to come, and what the rounds will bring. No round left is a timeout. */
  datatype Port = Port(stream: string, rounds: seq<Round>)

  /** What a read has stored; a failed one tells nothing of it. */
  datatype Read = Got(data: string) | Failed(data: string)

  /** Reads until n bytes are there or nothing comes any more. */
  function BytesRead(p: Port, n: nat): (Port, Read)
    decreases |p.rounds|
  {
    if n == 0 then (p, Got(""))
    else if p.rounds == [] then (p, Got(""))
    else
      var q := p.(rounds := p.rounds[1..]);
      match p.rounds[0]
      case Timeout => (q, Got(""))
      case Error => (q, Failed(""))
      case Ready(b) =>
        var k := Min(Min(b, n), |p.stream|);
        var (r, rest) := BytesRead(q.(stream := p.stream[k..]), n - k);
        (r, rest.(data := p.stream[..k] + rest.data))
  }

  /** How many of the rounds are errors. */
  function Errors(rounds: seq<Round>): nat
    decreases |rounds|
  {
    if rounds == [] then 0 else (if rounds[0].Error? then 1 else 0) + Errors(rounds[1..])
  }

  /** What is read is what the line brought next, and the line goes on behind it. */
  lemma {:induction false} ReadIsPrefix(p: Port, n: nat)
    ensures var (q, r) := BytesRead(p, n);
      && |q.rounds| <= |p.rounds| && |q.stream| <= |p.stream|
      && |r.data| <= n && p.stream == r.data + q.stream
    decreases |p.rounds|
  {
    ReadStep(p, n);
    hide BytesRead;
    Regroup("", "", p.stream);
    if n > 0 && p.rounds != [] && p.rounds[0].Ready? {
      var k := Min(Min(p.rounds[0].bytes, n), |p.stream|);
      var q := Port(p.stream[k..], p.rounds[1..]);
      ReadIsPrefix(q, n - k);
      var (r, rest) := BytesRead(q, n - k);
      Regroup(p.stream[..k], rest.data, r.stream);
      assert p.stream == p.stream[..k] + p.stream[k..];
    }
  }

  /** A read fails at the first error that it takes, and then it is short of bytes. */
  lemma {:induction false} ReadErrors(p: Port, n: nat)
    ensures var (q, r) := BytesRead(p, n);
      && (r.Failed? ==> |r.data| < n)
      && Errors(p.rounds) == Errors(q.rounds) + (if r.Failed? then 1 else 0)
    decreases |p.rounds|
  {
    ReadStep(p, n);
    ErrorsStep(p.rounds);
    hide BytesRead, Errors;
    if n > 0 && p.rounds != [] && p.rounds[0].Ready? {
      var k := Min(Min(p.rounds[0].bytes, n), |p.stream|);
      ReadErrors(Port(p.stream[k..], p.rounds[1..]), n - k);
    }
  }

  lemma {:induction false} ErrorsStep(rounds: seq<Round>)
    ensures rounds != [] ==> Errors(rounds) == (if rounds[0].Error? then 1 else 0) + Errors(rounds[1..])
  {
  }

  lemma {:induction false} ReadStep(p: Port, n: nat)
    ensures n == 0 || p.rounds == [] ==> BytesRead(p, n) == (p, Got(""))
    ensures n > 0 && p.rounds != [] && !p.rounds[0].Ready? ==>
      BytesRead(p, n) == (Port(p.stream, p.rounds[1..]), if p.rounds[0].Timeout? then Got("") else Failed(""))
    ensures n > 0 && p.rounds != [] && p.rounds[0].Ready? ==>
      var k := Min(Min(p.rounds[0].bytes, n), |p.stream|);
      var (r, rest) := BytesRead(Port(p.stream[k..], p.rounds[1..]), n - k);
      BytesRead(p, n) == (r, rest.(data := p.stream[..k] + rest.data))
  {
  }

  lemma {:induction false} Regroup(a: string, b: string, c: string)
    ensures a + (b + c) == a + b + c && "" + c == c
  {
  }

  /** Every round brings something. */
  predicate Steady(p: Port) { forall i | 0 <= i < |p.rounds| :: p.rounds[i].Ready? && p.rounds[i].bytes > 0 }

  /** On a steady line with a round for every byte, everything asked for arrives, however it is cut up. */
  lemma {:induction false} SteadyRead(p: Port, n: nat)
    requires Steady(p) && n <= |p.stream| && n <= |p.rounds|
    ensures var (q, r) := BytesRead(p, n);
      && r == Got(p.stream[..n]) && q.stream == p.stream[n..]
      && Steady(q) && |q.rounds| >= |p.rounds| - n
    decreases |p.rounds|
  {
    if n > 0 {
      var b := p.rounds[0].bytes;
      var k := Min(Min(b, n), |p.stream|);
      var q := Port(p.stream[k..], p.rounds[1..]);
      SteadyRead(q, n - k);
      Cut(p.stream, k, n);
    }
  }

  lemma {:induction false} Cut(s: string, k: nat, n: nat)
    requires k <= n <= |s|
    ensures s[..k] + s[k..][..n - k] == s[..n] && s[k..][n - k..] == s[n..]
  {
  }

  // ---- The message reader ----

  /** Unscanned: a number does not begin with a digit, which the program does not notice. */
  datatype Outcome = Message(data: string) | NoMessage | FormatError | TooLong | LineError | Unscanned | OutOfMemory

  /** The C library: what memory holds where nothing has been stored, and whether reallocating to no bytes at
      all yields a block. Where it does not, as in glibc, the program takes that for a lack of memory. */
  datatype Library = Library(memory: nat -> char, emptyBlocks: bool)

  /** Growing a message of so many bytes by n fails. */
  predicate Refuses(lib: Library, size: nat, n: nat) { size + n == 0 && !lib.emptyBlocks }

  /** The number that a text begins with. */
  function Scan(s: string): nat {
    var n := Digits(s);
    Value(s[..n])
  }

  /** What a read that falls short means between blocks, and inside one. */
  function Short(r: Read, got: string): Outcome {
    if r.Failed? then LineError else if got == "" then NoMessage else FormatError
  }

  function ShortInside(r: Read): Outcome { if r.Failed? then LineError else FormatError }

  /** Block data of which only the first bytes have been stored: the others are what the memory held. */
  function Filled(stored: string, n: nat, at: nat, memory: nat -> char): (s: string)
    requires |stored| <= n
    ensures |s| == n && s[..|stored|] == stored
  {
    stored + seq(n - |stored|, i requires 0 <= i => memory(at + |stored| + i))
  }

  /** Reads the rest of a message whose first blocks have brought `got`. */
  function ReadMessage(p: Port, got: string, bsize: nat, lib: Library): (Port, Outcome)
    decreases |p.stream|
  {
    ReadIsPrefix(p, 1);
    var (q, mark) := BytesRead(p, 1);
    if mark.Failed? || |mark.data| < 1 then (q, Short(mark, got))
    else if mark.data == "\n" then (q, if |got| > bsize then TooLong else Message(got))
    else if mark.data != "#" then (q, FormatError)
    else ReadBlock(q, got, bsize, lib)
  }

  datatype Header = Size(bytes: nat) | Stop(outcome: Outcome)

  /** Reads the two numbers behind a block's sign: how many digits the size has, and the size. */
  function ReadHeader(p: Port, got: string): (r: (Port, Header))
    ensures |r.0.stream| <= |p.stream| && (r.1.Size? ==> |r.0.stream| < |p.stream|)
    ensures r.1.Stop? ==> !r.1.outcome.Message?
  {
    ReadIsPrefix(p, 1);
    var (q, digit) := BytesRead(p, 1);
    if digit.Failed? || |digit.data| < 1 then (q, Stop(Short(digit, got)))
    else if !IsDigit(digit.data[0]) then (q, Stop(Unscanned))
    else
      var length := Scan(digit.data);
      ReadIsPrefix(q, length);
      var (r, size) := BytesRead(q, length);
      if size.Failed? || |size.data| < length then (r, Stop(ShortInside(size)))
      else if length == 0 then (r, Stop(FormatError))
      else if !IsDigit(size.data[0]) then (r, Stop(Unscanned))
      else (r, Size(Scan(size.data)))
  }

  /** Reads a block behind its sign, and goes on. That the data of a block could not be read is not noticed:
      the negative result is compared with the size as an unsigned number. */
  function ReadBlock(p: Port, got: string, bsize: nat, lib: Library): (Port, Outcome)
    decreases |p.stream|, 1
  {
    var (r, h) := ReadHeader(p, got);
    match h
    case Stop(o) => (r, o)
    case Size(n) =>
      if Refuses(lib, |got|, n) then (r, OutOfMemory)
      else
        ReadIsPrefix(r, n);
        var (t, block) := BytesRead(r, n);
        if block.Got? && |block.data| < n then (t, FormatError)
        else ReadMessage(t, got + Filled(block.data, n, |got|, lib.memory), bsize, lib)
  }

  // ---- Which errors are noticed ----

  /** While the data of a block is read the line has an error. When `bare`, an empty block ends the reading. */
  predicate ErrorInData(p: Port, bare: bool)
    decreases |p.stream|
  {
    ReadIsPrefix(p, 1);
    var (q, mark) := BytesRead(p, 1);
    mark.Got? && mark.data == "#" && ErrorInBlock(q, bare)
  }

  predicate ErrorInBlock(p: Port, bare: bool)
    decreases |p.stream|, 1
  {
    var (r, h) := ReadHeader(p, "");
    && h.Size? && !(bare && h.bytes == 0)
    && (ReadIsPrefix(r, h.bytes);
        var (t, block) := BytesRead(r, h.bytes);
        block.Failed? || (|block.data| == h.bytes && ErrorInData(t, false)))
  }

  /** An empty block would end the reading now. */
  predicate Bare(lib: Library, got: string) { got == "" && !lib.emptyBlocks }

  /** How much has been read before does not matter for the two numbers. A header stops at the first error. */
  lemma {:induction false} HeaderErrors(p: Port, got: string)
    ensures var (r, h) := ReadHeader(p, got);
      && Errors(p.rounds) == Errors(r.rounds) + (if h.Stop? && h.outcome.LineError? then 1 else 0)
      && r == ReadHeader(p, "").0
      && (h.Size? ==> h == ReadHeader(p, "").1) && (ReadHeader(p, "").1.Size? ==> h.Size?)
  {
    hide BytesRead, Scan, Errors;
    ReadIsPrefix(p, 1);
    ReadErrors(p, 1);
    var (q, digit) := BytesRead(p, 1);
    if digit.Got? && |digit.data| == 1 && IsDigit(digit.data[0]) {
      ReadIsPrefix(q, Scan(digit.data));
      ReadErrors(q, Scan(digit.data));
    }
  }

  /** The reader notices as many errors (one or none) as it takes exactly when the line has none while the data
      of a block is read. */
  lemma {:induction false} ErrorsNoticed(p: Port, got: string, bsize: nat, lib: Library)
    ensures var (q, o) := ReadMessage(p, got, bsize, lib);
      && Errors(p.rounds) >= Errors(q.rounds) + (if o.LineError? then 1 else 0)
      && (Errors(p.rounds) == Errors(q.rounds) + (if o.LineError? then 1 else 0) <==> !ErrorInData(p, Bare(lib, got)))
    decreases |p.stream|
  {
    hide BytesRead, Errors, ReadBlock, ErrorInBlock, Bare;
    ReadIsPrefix(p, 1);
    ReadErrors(p, 1);
    var (q, mark) := BytesRead(p, 1);
    if mark.Got? && mark.data == "#" {
      BlockErrorsNoticed(q, got, bsize, lib);
    }
  }

  lemma {:induction false} BlockErrorsNoticed(p: Port, got: string, bsize: nat, lib: Library)
    ensures var (q, o) := ReadBlock(p, got, bsize, lib);
      && Errors(p.rounds) >= Errors(q.rounds) + (if o.LineError? then 1 else 0)
      && (Errors(p.rounds) == Errors(q.rounds) + (if o.LineError? then 1 else 0) <==> !ErrorInBlock(p, Bare(lib, got)))
    decreases |p.stream|, 1
  {
    hide BytesRead, Errors, ReadHeader, ReadMessage, ErrorInData, Filled;
    HeaderErrors(p, got);
    var (r, h) := ReadHeader(p, got);
    if h.Size? && !Refuses(lib, |got|, h.bytes) {
      ReadIsPrefix(r, h.bytes);
      ReadErrors(r, h.bytes);
      var (t, block) := BytesRead(r, h.bytes);
      if block.Failed? || |block.data| == h.bytes {
        var more := got + Filled(block.data, h.bytes, |got|, lib.memory);
        assert Bare(lib, more) == false;
        ErrorsNoticed(t, more, bsize, lib);
      }
    }
  }

  /** A line without errors has none in the data. */
  lemma {:induction false} NoErrorInData(p: Port, bare: bool)
    requires Error !in p.rounds
    ensures !ErrorInData(p, bare)
  {
    NoErrors(p.rounds);
    var lib := Library(_ => ' ', !bare);
    assert Bare(lib, "") == bare;
    ErrorsNoticed(p, "", 0, lib);
  }

  lemma {:induction false} NoErrors(rounds: seq<Round>)
    requires Error !in rounds
    ensures Errors(rounds) == 0
    decreases |rounds|
  {
    if rounds != [] {
      assert rounds[0] in rounds;
      NoErrors(rounds[1..]);
    }
  }

  /** What the memory held makes no difference but in the message itself. */
  predicate Alike(a: Outcome, b: Outcome, n: nat) {
    if a.Message? then b.Message? && n <= |a.data| == |b.data| else a == b
  }

  ghost predicate AllDiffer(m: Library, l: Library) { forall i: nat :: m.memory(i) != l.memory(i) }

  lemma {:induction false} MemoryInMessage(p: Port, a: string, b: string, bsize: nat, m: Library, l: Library)
    requires |a| == |b| && m.emptyBlocks == l.emptyBlocks
    ensures var (q, o) := ReadMessage(p, a, bsize, m);
      var (u, w) := ReadMessage(p, b, bsize, l);
      && q == u && Alike(o, w, |a|)
      && (o.Message? ==> o.data[..|a|] == a && w.data[..|b|] == b)
      && (o.Message? && ErrorInData(p, Bare(m, a)) && AllDiffer(m, l) ==> o.data != w.data)
    decreases |p.stream|
  {
    hide BytesRead, ReadBlock, ErrorInBlock, Bare, AllDiffer;
    ReadIsPrefix(p, 1);
    var (q, mark) := BytesRead(p, 1);
    if mark.Got? && mark.data == "#" {
      MemoryInBlock(q, a, b, bsize, m, l);
    } else {
      assert a[..|a|] == a && b[..|b|] == b;
    }
  }

  lemma {:induction false} MemoryInBlock(p: Port, a: string, b: string, bsize: nat, m: Library, l: Library)
    requires |a| == |b| && m.emptyBlocks == l.emptyBlocks
    ensures var (q, o) := ReadBlock(p, a, bsize, m);
      var (u, w) := ReadBlock(p, b, bsize, l);
      && q == u && Alike(o, w, |a|)
      && (o.Message? ==> o.data[..|a|] == a && w.data[..|b|] == b)
      && (o.Message? && ErrorInBlock(p, Bare(m, a)) && AllDiffer(m, l) ==> o.data != w.data)
    decreases |p.stream|, 1
  {
    hide BytesRead, ReadMessage, ErrorInData, Filled;
    SameHeader(p, a, b);
    HeaderErrors(p, a);
    hide ReadHeader;
    var (r, h) := ReadHeader(p, a);
    if h.Size? && !Refuses(m, |a|, h.bytes) {
      ReadIsPrefix(r, h.bytes);
      ReadErrors(r, h.bytes);
      var (t, block) := BytesRead(r, h.bytes);
      if block.Failed? || |block.data| == h.bytes {
        var c, d := Filled(block.data, h.bytes, |a|, m.memory), Filled(block.data, h.bytes, |b|, l.memory);
        assert Bare(m, a + c) == false;
        MemoryInMessage(t, a + c, b + d, bsize, m, l);
        var o, w := ReadMessage(t, a + c, bsize, m).1, ReadMessage(t, b + d, bsize, l).1;
        if o.Message? {
          Front(o.data, a, c);
          Front(w.data, b, d);
          if block.Failed? && AllDiffer(m, l) {
            FilledDiffer(block.data, h.bytes, |a|, m.memory, l.memory);
            BehindDiffer(a, c, b, d);
            assert a + c != b + d;
          }
        }
      }
    }
  }

  lemma {:induction false} SameHeader(p: Port, a: string, b: string)
    requires |a| == |b|
    ensures ReadHeader(p, a) == ReadHeader(p, b)
  {
    assert a == "" <==> b == "";
  }

  lemma {:induction false} Front(s: string, a: string, c: string)
    requires |a + c| <= |s| && s[..|a + c|] == a + c
    ensures s[..|a|] == a
  {
    assert s[..|a|] == (a + c)[..|a|];
  }

  lemma {:induction false} FilledDiffer(stored: string, n: nat, at: nat, m: nat -> char, l: nat -> char)
    requires |stored| < n && forall i: nat :: m(i) != l(i)
    ensures Filled(stored, n, at, m) != Filled(stored, n, at, l)
  {
    var c, d := Filled(stored, n, at, m), Filled(stored, n, at, l);
    assert c[|stored|] == m(at + |stored|) && d[|stored|] == l(at + |stored|);
  }

  lemma {:induction false} BehindDiffer(a: string, c: string, b: string, d: string)
    requires |a| == |b| && c != d
    ensures a + c != b + d
  {
    assert (a + c)[|a|..] == c;
    assert (b + d)[|b|..] == d;
  }

  // ---- Framing ----

  /** A block of data whose size is written with a fixed number of digits. */
  datatype Block = Block(data: string, width: nat) {
    predicate Valid() { 1 <= width <= 9 && |data| < Power(width) }

    function Bytes(): string { "#" + (Natural(width) + (Padded(|data|, width) + data)) }
  }

  function Frame(bs: seq<Block>): string
    decreases |bs|
  {
    if bs == [] then "\n" else bs[0].Bytes() + Frame(bs[1..])
  }

  function Data(bs: seq<Block>): string
    decreases |bs|
  {
    if bs == [] then "" else bs[0].data + Data(bs[1..])
  }

  predicate AllValid(bs: seq<Block>) { forall i | 0 <= i < |bs| :: bs[i].Valid() }

  lemma {:induction false} ScanExactly(s: string)
    requires s != "" && forall c | c in s :: IsDigit(c)
    ensures Digits(s) == |s| && Scan(s) == Value(s) && IsDigit(s[0])
  {
    AllDigits(s);
    assert s[..|s|] == s;
    assert s[0] in s;
  }

  /** The two numbers of a block are one digit and exactly as many digits as it says. */
  lemma {:induction false} Numbers(b: Block)
    requires b.Valid()
    ensures |Natural(b.width)| == 1 && IsDigit(Natural(b.width)[0]) && Scan(Natural(b.width)) == b.width
    ensures var s := Padded(|b.data|, b.width); |s| == b.width && IsDigit(s[0]) && Scan(s) == |b.data|
  {
    var d, s := Natural(b.width), Padded(|b.data|, b.width);
    ScanExactly(d);
    ValueOfNatural(b.width);
    PaddedField(|b.data|, b.width);
    ScanExactly(s);
  }

  /** A line that brings a round for every one of so many bytes. */
  predicate Ample(p: Port, n: nat) { Steady(p) && n <= |p.rounds| }

  /** Reading a known piece of the stream: the piece and nothing else, or too little. */
  lemma {:induction false} ReadPiece(p: Port, a: string, b: string)
    requires p.stream == a + b
    ensures var (q, r) := BytesRead(p, |a|);
      && (r.Got? ==> |r.data| <= |a|)
      && (r.Got? && |r.data| == |a| ==> r.data == a && q.stream == b)
      && (Ample(p, |a|) ==> r == Got(a) && q.stream == b && Steady(q) && |q.rounds| >= |p.rounds| - |a|)
  {
    ReadIsPrefix(p, |a|);
    var (q, r) := BytesRead(p, |a|);
    assert |r.data| == |a| ==> r.data == p.stream[..|a|] && q.stream == p.stream[|a|..];
    assert p.stream[..|a|] == a && p.stream[|a|..] == b;
    if Ample(p, |a|) {
      SteadyRead(p, |a|);
      assert p.stream[..|a|] == a && p.stream[|a|..] == b;
    }
  }

  /** The outcome that a message deserves. */
  function Deserved(data: string, bsize: nat): Outcome { if |data| > bsize then TooLong else Message(data) }

  /** The message of these blocks, behind bytes that have been read, does not begin with an empty block that
      the library has no memory for. */
  predicate Served(lib: Library, got: string, bs: seq<Block>) { bs == [] || !Refuses(lib, |got|, |bs[0].data|) }

  /** Where reading a frame may lead: to the right outcome with exactly the frame consumed, or to an error
      that owns up to missing bytes or memory; on an ample line to the right outcome, or for want of memory to
      none. */
  ghost predicate Reads(p: Port, q: Port, o: Outcome, frame: string, rest: string, due: Outcome, unseen: bool, served: bool) {
    && (!unseen && (o.Message? || o.TooLong?) ==> o == due && q.stream == rest)
    && (!unseen ==> !o.Unscanned?)
    && (Ample(p, |frame|) && served ==> o == due && q.stream == rest && Steady(q) && |q.rounds| >= |p.rounds| - |frame|)
    && (Ample(p, |frame|) && !served ==> o == OutOfMemory)
  }

  lemma {:induction false} ReadsFrame(p: Port, got: string, bs: seq<Block>, rest: string, bsize: nat, lib: Library)
    requires AllValid(bs) && p.stream == Frame(bs) + rest
    ensures var (q, o) := ReadMessage(p, got, bsize, lib);
      Reads(p, q, o, Frame(bs), rest, Deserved(got + Data(bs), bsize), ErrorInData(p, Bare(lib, got)), Served(lib, got, bs))
    decreases |bs|
  {
    hide BytesRead, Natural, Padded, Scan, IsDigit, Steady, ErrorInBlock, Bare;
    if bs == [] {
      ReadPiece(p, "\n", rest);
      assert Frame(bs) == "\n" && got + Data(bs) == got;
      var (q, mark) := BytesRead(p, 1);
      assert |"\n"| == 1;
      assert mark.Got? && |mark.data| == 1 ==> mark.data == "\n" && q.stream == rest;
    } else {
      hide Served;
      assert |Frame(bs)| >= 1;
      var tail := Natural(bs[0].width) + (Padded(|bs[0].data|, bs[0].width) + bs[0].data) + Frame(bs[1..]) + rest;
      assert p.stream == "#" + tail;
      ReadPiece(p, "#", tail);
      var (q, mark) := BytesRead(p, 1);
      if mark.Got? && |mark.data| == 1 {
        ReadsBlock(q, got, bs, rest, bsize, lib);
      }
    }
  }

  lemma {:induction false} ReadsBlock(p: Port, got: string, bs: seq<Block>, rest: string, bsize: nat, lib: Library)
    requires AllValid(bs) && bs != []
    requires p.stream == Natural(bs[0].width) + (Padded(|bs[0].data|, bs[0].width) + bs[0].data) + Frame(bs[1..]) + rest
    ensures var (q, o) := ReadBlock(p, got, bsize, lib);
      var due, unseen, served := Deserved(got + Data(bs), bsize), ErrorInBlock(p, Bare(lib, got)), Served(lib, got, bs);
      && (!unseen && (o.Message? || o.TooLong?) ==> o == due && q.stream == rest)
      && (!unseen ==> !o.Unscanned?)
      && (Ample(p, |Frame(bs)| - 1) && served ==>
            o == due && q.stream == rest && Steady(q) && |q.rounds| >= |p.rounds| - (|Frame(bs)| - 1))
      && (Ample(p, |Frame(bs)| - 1) && !served ==> o == OutOfMemory)
    decreases |bs|, 0
  {
    var b := bs[0];
    var digit, size := Natural(b.width), Padded(|b.data|, b.width);
    var after := Frame(bs[1..]) + rest;
    hide BytesRead, ReadHeader, Natural, Padded, Steady, ErrorInData, Frame;
    FrameLength(bs);
    Regrouped(digit, size, b.data, Frame(bs[1..]), rest);
    ReadsHeader(p, got, b, b.data + after);
    HeaderErrors(p, got);
    var (u, h) := ReadHeader(p, got);
    if h.Size? && Served(lib, got, bs) {
      ReadPiece(u, b.data, after);
      var (v, w) := BytesRead(u, |b.data|);
      if w.Got? && |w.data| == |b.data| {
        FilledWhole(b.data, |got|, lib.memory);
        ReadsFrame(v, got + b.data, bs[1..], rest, bsize, lib);
        DataStep(got, bs);
      }
    }
  }

  lemma {:induction false} FrameLength(bs: seq<Block>)
    requires AllValid(bs) && bs != []
    ensures |Frame(bs)| == 2 + bs[0].width + |bs[0].data| + |Frame(bs[1..])|
  {
    Numbers(bs[0]);
  }

  lemma {:induction false} Regrouped(a: string, b: string, c: string, d: string, e: string)
    ensures a + (b + c) + d + e == a + (b + (c + (d + e)))
  {
  }

  lemma {:induction false} DataStep(got: string, bs: seq<Block>)
    requires bs != []
    ensures got + bs[0].data + Data(bs[1..]) == got + Data(bs)
  {
  }

  /** The numbers of a block are read as they were written, or bytes are missing. */
  lemma {:induction false} ReadsHeader(p: Port, got: string, b: Block, after: string)
    requires b.Valid() && p.stream == Natural(b.width) + (Padded(|b.data|, b.width) + after)
    ensures var (u, h) := ReadHeader(p, got);
      && (h.Size? ==> h.bytes == |b.data| && u.stream == after)
      && (h.Stop? ==> !h.outcome.Message? && !h.outcome.TooLong? && !h.outcome.Unscanned?)
      && (Ample(p, 1 + b.width) ==> h.Size? && Steady(u) && |u.rounds| >= |p.rounds| - 1 - b.width)
  {
    Numbers(b);
    var digit, size := Natural(b.width), Padded(|b.data|, b.width);
    hide BytesRead, Natural, Padded, Scan, IsDigit, Steady;
    ReadPiece(p, digit, size + after);
    var (q, r) := BytesRead(p, 1);
    if r.Got? && |r.data| == 1 {
      ReadPiece(q, size, after);
    }
  }

  lemma {:induction false} FilledWhole(data: string, at: nat, memory: nat -> char)
    ensures Filled(data, |data|, at, memory) == data
  {
  }

  // ---- A line that stops ----

  /** Blocks without the end of the message. */
  function Blocks(bs: seq<Block>): string
    decreases |bs|
  {
    if bs == [] then "" else bs[0].Bytes() + Blocks(bs[1..])
  }

  lemma {:induction false} NothingComes(p: Port)
    requires Steady(p) && p.stream == ""
    ensures BytesRead(p, 1).1 == Got("")
  {
    ReadIsPrefix(p, 1);
    ReadErrors(p, 1);
    NoErrors(p.rounds);
  }

  /** A whole block that arrives is taken, and the reading goes on behind it. */
  lemma {:induction false} BlockArrives(p: Port, got: string, b: Block, after: string, bsize: nat, lib: Library) returns (t: Port)
    requires b.Valid() && p.stream == b.Bytes() + after && Ample(p, |b.Bytes()|) && !Refuses(lib, |got|, |b.data|)
    ensures t.stream == after && Steady(t) && |t.rounds| >= |p.rounds| - |b.Bytes()|
    ensures ReadMessage(p, got, bsize, lib) == ReadMessage(t, got + b.data, bsize, lib)
  {
    hide BytesRead, ReadHeader, ReadMessage, ReadBlock, Natural, Padded, Scan, Refuses, Steady;
    Numbers(b);
    var numbers := Padded(|b.data|, b.width) + b.data;
    assert |b.Bytes()| == 2 + b.width + |b.data|;
    assert p.stream == "#" + (Natural(b.width) + numbers + after);
    ReadPiece(p, "#", Natural(b.width) + numbers + after);
    MessageStep(p, got, bsize, lib);
    var (q, mark) := BytesRead(p, 1);
    assert |"#"| == 1 && Ample(p, 1);
    assert Natural(b.width) + numbers + after == Natural(b.width) + (Padded(|b.data|, b.width) + (b.data + after));
    ReadsHeader(q, got, b, b.data + after);
    BlockStep(q, got, bsize, lib);
    var (u, h) := ReadHeader(q, got);
    ReadPiece(u, b.data, after);
    FilledWhole(b.data, |got|, lib.memory);
    t := BytesRead(u, |b.data|).0;
  }

  /** A line that stops behind whole blocks: no message if they are empty, a broken one otherwise. */
  lemma {:induction false} LineStops(p: Port, got: string, bs: seq<Block>, bsize: nat, lib: Library)
    requires AllValid(bs) && p.stream == Blocks(bs) && Ample(p, |Blocks(bs)|) && Served(lib, got, bs)
    ensures ReadMessage(p, got, bsize, lib).1 == if got + Data(bs) == "" then NoMessage else FormatError
    decreases |bs|
  {
    hide BytesRead, ReadMessage, ReadBlock, Natural, Padded, Steady;
    if bs == [] {
      NothingComes(p);
      MessageStep(p, got, bsize, lib);
      assert got + "" == got;
    } else {
      var t := BlockArrives(p, got, bs[0], Blocks(bs[1..]), bsize, lib);
      LineStops(t, got + bs[0].data, bs[1..], bsize, lib);
      DataStep(got, bs);
    }
  }

  // ---- Whatever is accepted is framed ----

  /** A block as the reader takes it: of the size only the digits at its beginning count. */
  datatype Piece = Piece(size: string, data: string) {
    predicate Valid() { 1 <= |size| <= 9 && IsDigit(size[0]) && Scan(size) == |data| }

    function Bytes(): string { "#" + (Natural(|size|) + (size + data)) }
  }

  function Pieces(ps: seq<Piece>): string
    decreases |ps|
  {
    if ps == [] then "\n" else ps[0].Bytes() + Pieces(ps[1..])
  }

  function PiecesData(ps: seq<Piece>): string
    decreases |ps|
  {
    if ps == [] then "" else ps[0].data + PiecesData(ps[1..])
  }

  predicate AllPieces(ps: seq<Piece>) { forall i | 0 <= i < |ps| :: ps[i].Valid() }

  lemma {:induction false} DigitText(s: string)
    requires |s| == 1 && IsDigit(s[0])
    ensures Natural(Scan(s)) == s && Scan(s) < 10
  {
    ScanDigit(s[0]);
    assert s == [s[0]];
  }

  /** The header of a block that is taken. */
  lemma {:induction false} HeaderTaken(p: Port, got: string) returns (size: string)
    requires ReadHeader(p, got).1.Size?
    ensures var (r, h) := ReadHeader(p, got);
      && 1 <= |size| <= 9 && IsDigit(size[0]) && Scan(size) == h.bytes
      && p.stream == Natural(|size|) + (size + r.stream)
  {
    hide BytesRead, Scan, Natural;
    ReadIsPrefix(p, 1);
    var (q, digit) := BytesRead(p, 1);
    DigitText(digit.data);
    var length := Scan(digit.data);
    ReadIsPrefix(q, length);
    size := BytesRead(q, length).1.data;
  }

  lemma {:induction false} OnePieceMore(x: Piece, ps: seq<Piece>)
    requires x.Valid() && AllPieces(ps)
    ensures AllPieces([x] + ps) && Pieces([x] + ps) == x.Bytes() + Pieces(ps) && PiecesData([x] + ps) == x.data + PiecesData(ps)
  {
    hide Scan;
    assert ([x] + ps)[1..] == ps;
  }

  lemma {:induction false} NotBare(lib: Library, got: string, data: string)
    requires !Refuses(lib, |got|, |data|)
    ensures !Bare(lib, got + data) && !(Bare(lib, got) && |data| == 0)
  {
  }

  /** On every line, whatever it brings: a message is returned only when the bytes that were consumed are blocks
      and a newline, and then it is the data of these blocks, unless the line had an error inside one. */
  lemma {:induction false} AcceptedIsFramed(p: Port, got: string, bsize: nat, lib: Library) returns (ps: seq<Piece>)
    requires ReadMessage(p, got, bsize, lib).1.Message? && !ErrorInData(p, Bare(lib, got))
    ensures var (q, o) := ReadMessage(p, got, bsize, lib);
      AllPieces(ps) && p.stream == Pieces(ps) + q.stream && o.data == got + PiecesData(ps)
    decreases |p.stream|
  {
    hide BytesRead, ReadBlock, ErrorInBlock, Bare, Scan, Natural;
    ReadIsPrefix(p, 1);
    var (q, mark) := BytesRead(p, 1);
    if mark.data == "\n" {
      ps := [];
      assert got + "" == got;
    } else {
      var x, more := BlockIsFramed(q, got, bsize, lib);
      ps := [x] + more;
      OnePieceMore(x, more);
      var rest := ReadMessage(p, got, bsize, lib).0.stream;
      assert "#" + (Natural(|x.size|) + (x.size + x.data) + Pieces(more) + rest)
          == "#" + (Natural(|x.size|) + (x.size + x.data)) + Pieces(more) + rest;
      assert got + x.data + PiecesData(more) == got + (x.data + PiecesData(more));
    }
  }

  lemma {:induction false} BlockIsFramed(p: Port, got: string, bsize: nat, lib: Library) returns (x: Piece, ps: seq<Piece>)
    requires ReadBlock(p, got, bsize, lib).1.Message? && !ErrorInBlock(p, Bare(lib, got))
    ensures var (q, o) := ReadBlock(p, got, bsize, lib);
      && x.Valid() && AllPieces(ps)
      && p.stream == Natural(|x.size|) + (x.size + x.data) + Pieces(ps) + q.stream
      && o.data == got + x.data + PiecesData(ps)
    decreases |p.stream|, 1
  {
    hide BytesRead, ReadHeader, ReadMessage, ErrorInData, Scan, Natural, Pieces, PiecesData, AllPieces, Bare;
    HeaderErrors(p, got);
    var size := HeaderTaken(p, got);
    var (r, h) := ReadHeader(p, got);
    ReadIsPrefix(r, h.bytes);
    var (t, block) := BytesRead(r, h.bytes);
    FilledWhole(block.data, |got|, lib.memory);
    NotBare(lib, got, block.data);
    x := Piece(size, block.data);
    ps := AcceptedIsFramed(t, got + block.data, bsize, lib);
    var rest := ReadMessage(t, got + block.data, bsize, lib).0.stream;
    assert Natural(|size|) + (size + (block.data + (Pieces(ps) + rest))) == Natural(|size|) + (size + block.data) + Pieces(ps) + rest;
  }

  predicate BeginsEmpty(bs: seq<Block>) { bs != [] && bs[0].data == "" }

  /** Framing is undone by reading, whatever bytes the blocks hold and however the line cuts them up. Unless
      the line has an error while the data of a block is read, the reader never returns anything but the
      blocks' data, with exactly this message consumed. On a line that brings all bytes it returns them exactly
      when the library has memory for no bytes or the message does not begin with an empty block. */
  lemma {:induction false} FrameRoundTrip(p: Port, bs: seq<Block>, rest: string, bsize: nat, lib: Library)
    requires AllValid(bs) && p.stream == Frame(bs) + rest
    ensures var (q, o) := ReadMessage(p, "", bsize, lib);
      && (o.Message? && !ErrorInData(p, !lib.emptyBlocks) ==> o.data == Data(bs) && |Data(bs)| <= bsize && q.stream == rest)
      && (o.TooLong? && !ErrorInData(p, !lib.emptyBlocks) ==> |Data(bs)| > bsize && q.stream == rest)
      && (Ample(p, |Frame(bs)|) ==>
           (o == Deserved(Data(bs), bsize) && q.stream == rest <==> lib.emptyBlocks || !BeginsEmpty(bs)))
  {
    hide Steady, ReadMessage, ErrorInData, Frame;
    ReadsFrame(p, "", bs, rest, bsize, lib);
    assert "" + Data(bs) == Data(bs);
    assert Bare(lib, "") == !lib.emptyBlocks;
  }

  /** A valid message of one empty block on a line that brings every byte: a library without memory for no bytes
      makes the reader give up, and the end of the message stays on the line. */
  lemma {:induction false} EmptyBlockIsRefused(bsize: nat, lib: Library)
    requires !lib.emptyBlocks
    ensures var bs, p := [Block("", 1)], Port("#10\n", [Ready(1), Ready(1), Ready(1), Ready(1)]);
      && AllValid(bs) && p.stream == Frame(bs) && Ample(p, |Frame(bs)|)
      && ReadMessage(p, "", bsize, lib) == (Port("\n", [Ready(1)]), OutOfMemory)
  {
    EmptyFrame();
    hide BytesRead, ReadHeader, ReadMessage, ReadBlock, Scan, Frame, Natural, Padded, Power;
    var rounds := [Ready(1), Ready(1), Ready(1), Ready(1)];
    OneByte("#10\n", rounds);
    assert "#10\n"[..1] == "#" && "#10\n"[1..] == "10\n";
    MessageStep(Port("#10\n", rounds), "", bsize, lib);
    HeaderOfOne('0', "\n", [Ready(1)]);
    assert "10\n" == "1" + ['0'] + "\n" && rounds[1..] == [Ready(1), Ready(1)] + [Ready(1)];
    BlockStep(Port("10\n", rounds[1..]), "", bsize, lib);
  }

  lemma {:induction false} EmptyFrame()
    ensures AllValid([Block("", 1)]) && Frame([Block("", 1)]) == "#10\n"
  {
    var b := Block("", 1);
    assert Natural(1) == "1" && Padded(0, 1) == "0" && Power(1) == 10;
    hide Frame, Natural, Padded, Power;
    OneBlock(b);
    assert b.Bytes() == "#10";
  }

  function OtherChar(c: char): char { if c == 'a' then 'b' else 'a' }

  /** A message that is returned can be trusted, whatever the memory held, exactly when the line has no error
      while the data of a block is read. */
  lemma {:induction false} MessageIsTrustworthy(p: Port, bs: seq<Block>, rest: string, bsize: nat, lib: Library)
    requires AllValid(bs) && p.stream == Frame(bs) + rest
    requires ReadMessage(p, "", bsize, lib).1.Message?
    ensures (forall m: nat -> char :: ReadMessage(p, "", bsize, lib.(memory := m)).1 == Message(Data(bs)))
       <==> !ErrorInData(p, !lib.emptyBlocks)
  {
    hide ReadMessage, ErrorInData;
    assert Bare(lib, "") == !lib.emptyBlocks;
    forall m: nat -> char
      ensures ReadMessage(p, "", bsize, lib.(memory := m)).1.Message?
      ensures !ErrorInData(p, !lib.emptyBlocks) ==> ReadMessage(p, "", bsize, lib.(memory := m)).1 == Message(Data(bs))
    {
      MemoryInMessage(p, "", "", bsize, lib, lib.(memory := m));
      FrameRoundTrip(p, bs, rest, bsize, lib.(memory := m));
    }
    if ErrorInData(p, !lib.emptyBlocks) {
      var other := (i: nat) => OtherChar(lib.memory(i));
      var l := lib.(memory := other);
      assert AllDiffer(lib, l);
      MemoryInMessage(p, "", "", bsize, lib, l);
      assert lib.(memory := lib.memory) == lib;
      assert ReadMessage(p, "", bsize, lib).1 != ReadMessage(p, "", bsize, l).1;
    }
  }

  /** On the line behind a block of one newline: an error while it is read, and the newline is taken for the
      end of the message, whose only byte is what the memory held. The true end stays on the line. */
  lemma {:induction false} ErrorPassesUnseen(bsize: nat, lib: Library)
    requires bsize >= 1
    ensures var bs := [Block("\n", 1)];
      var p := Port("#11\n\n", [Ready(1), Ready(1), Ready(1), Error, Ready(1)]);
      && AllValid(bs) && p.stream == Frame(bs)
      && ReadMessage(p, "", bsize, lib) == (Port("\n", []), Message([lib.memory(0)]))
  {
    NewlineFrame();
    UnseenError(bsize, lib);
  }

  lemma {:induction false} NewlineFrame()
    ensures AllValid([Block("\n", 1)]) && Frame([Block("\n", 1)]) == "#11\n\n"
  {
    var b := Block("\n", 1);
    assert Natural(1) == "1" && Padded(1, 1) == "1" && Power(1) == 10;
    hide Frame, Natural, Padded, Power;
    OneBlock(b);
    assert b.Bytes() == "#11\n";
  }

  lemma {:induction false} UnseenError(bsize: nat, lib: Library)
    requires bsize >= 1
    ensures ReadMessage(Port("#11\n\n", [Ready(1), Ready(1), Ready(1), Error, Ready(1)]), "", bsize, lib)
         == (Port("\n", []), Message([lib.memory(0)]))
  {
    hide BytesRead, ReadHeader, ReadMessage, ReadBlock, Filled;
    var end := (Port("\n", []), Message([lib.memory(0)]));
    var last := Port("\n\n", [Ready(1)]);
    assert ReadMessage(last, [lib.memory(0)], bsize, lib) == end by {
      OneByte("\n\n", [Ready(1)]);
      assert "\n\n"[..1] == "\n" == "\n\n"[1..] && [Ready(1)][1..] == [];
      MessageStep(last, [lib.memory(0)], bsize, lib);
    }
    var block := Port("11\n\n", [Ready(1), Ready(1), Error, Ready(1)]);
    assert ReadBlock(block, "", bsize, lib) == end by {
      HeaderOfOne('1', "\n\n", [Error, Ready(1)]);
      assert block == Port("1" + ['1'] + "\n\n", [Ready(1), Ready(1)] + [Error, Ready(1)]);
      assert [Error, Ready(1)][1..] == [Ready(1)];
      ReadStep(Port("\n\n", [Error, Ready(1)]), 1);
      NothingStored(lib.memory);
      BlockStep(block, "", bsize, lib);
    }
    var rounds := [Ready(1), Ready(1), Ready(1), Error, Ready(1)];
    OneByte("#11\n\n", rounds);
    assert "#11\n\n"[..1] == "#" && "#11\n\n"[1..] == block.stream && rounds[1..] == block.rounds;
    MessageStep(Port("#11\n\n", rounds), "", bsize, lib);
  }

  lemma {:induction false} NothingStored(memory: nat -> char)
    ensures "" + Filled("", 1, 0, memory) == [memory(0)]
  {
  }

  lemma {:induction false} OneBlock(b: Block)
    ensures Frame([b]) == b.Bytes() + "\n"
  {
    assert [b][1..] == [];
  }

  lemma {:induction false} HeaderOfOne(d: char, s: string, rounds: seq<Round>)
    requires IsDigit(d)
    ensures ReadHeader(Port("1" + [d] + s, [Ready(1), Ready(1)] + rounds), "") == (Port(s, rounds), Size(d as nat - '0' as nat))
  {
    hide BytesRead, Scan;
    ScanDigit('1');
    ScanDigit(d);
    var text, later := "1" + [d] + s, [d] + s;
    assert text[1..] == later && later[1..] == s && text[..1] == "1" == ['1'] && later[..1] == [d];
    assert ([Ready(1), Ready(1)] + rounds)[1..] == [Ready(1)] + rounds && ([Ready(1)] + rounds)[1..] == rounds;
    OneByte(text, [Ready(1), Ready(1)] + rounds);
    OneByte(later, [Ready(1)] + rounds);
  }

  lemma {:induction false} OneByte(s: string, rounds: seq<Round>)
    requires s != "" && rounds != [] && rounds[0] == Ready(1)
    ensures BytesRead(Port(s, rounds), 1) == (Port(s[1..], rounds[1..]), Got(s[..1]))
  {
    assert BytesRead(Port(s[1..], rounds[1..]), 0) == (Port(s[1..], rounds[1..]), Got(""));
    assert s[..1] + "" == s[..1];
  }

  lemma {:induction false} ScanDigit(d: char)
    requires IsDigit(d)
    ensures Scan([d]) == d as nat - '0' as nat
  {
    assert [d][1..] == "" && Digits([d]) == 1;
    assert [d][..1] == [d] && [d][..0] == "" && Value("") == 0;
  }

  // ---- Messages back to back ----

  function Frames(ms: seq<seq<Block>>): string
    decreases |ms|
  {
    if ms == [] then "" else Frame(ms[0]) + Frames(ms[1..])
  }

  /** The memory may hold something else for every message. */
  function ReadAll(p: Port, n: nat, bsize: nat, emptyBlocks: bool, memories: nat -> nat -> char): seq<Outcome>
    decreases n
  {
    if n == 0 then []
    else
      var (q, o) := ReadMessage(p, "", bsize, Library(memories(n), emptyBlocks));
      [o] + ReadAll(q, n - 1, bsize, emptyBlocks, memories)
  }

  function AllDeserved(ms: seq<seq<Block>>, bsize: nat): seq<Outcome> {
    seq(|ms|, i requires 0 <= i < |ms| => Deserved(Data(ms[i]), bsize))
  }

  /** Messages stay in step, each read as itself, also behind one that is too long: exactly when the library has
      memory for no bytes or no message begins with an empty block. */
  lemma {:induction false} MessagesInStep(p: Port, ms: seq<seq<Block>>, rest: string, bsize: nat, emptyBlocks: bool,
                                          memories: nat -> nat -> char)
    requires forall i | 0 <= i < |ms| :: AllValid(ms[i])
    requires p.stream == Frames(ms) + rest && Ample(p, |Frames(ms)|)
    ensures ReadAll(p, |ms|, bsize, emptyBlocks, memories) == AllDeserved(ms, bsize)
       <==> emptyBlocks || forall i | 0 <= i < |ms| :: !BeginsEmpty(ms[i])
    decreases |ms|
  {
    hide ReadMessage, Frame, AllValid, ErrorInData, Steady;
    if ms != [] {
      var lib := Library(memories(|ms|), emptyBlocks);
      assert p.stream == Frame(ms[0]) + (Frames(ms[1..]) + rest);
      ReadsFrame(p, "", ms[0], Frames(ms[1..]) + rest, bsize, lib);
      assert "" + Data(ms[0]) == Data(ms[0]);
      var (q, o) := ReadMessage(p, "", bsize, lib);
      assert Served(lib, "", ms[0]) <==> emptyBlocks || !BeginsEmpty(ms[0]);
      FirstDeserved(ms, bsize, o, ReadAll(q, |ms| - 1, bsize, emptyBlocks, memories));
      FirstBegins(ms);
      if Served(lib, "", ms[0]) {
        MessagesInStep(q, ms[1..], rest, bsize, emptyBlocks, memories);
      }
    }
  }

  lemma {:induction false} FirstDeserved(ms: seq<seq<Block>>, bsize: nat, o: Outcome, os: seq<Outcome>)
    requires ms != []
    ensures [o] + os == AllDeserved(ms, bsize) <==> o == Deserved(Data(ms[0]), bsize) && os == AllDeserved(ms[1..], bsize)
  {
    assert AllDeserved(ms, bsize) == [Deserved(Data(ms[0]), bsize)] + AllDeserved(ms[1..], bsize);
    assert ([o] + os)[1..] == os && ([Deserved(Data(ms[0]), bsize)] + AllDeserved(ms[1..], bsize))[1..] == AllDeserved(ms[1..], bsize);
  }

  lemma {:induction false} FirstBegins(ms: seq<seq<Block>>)
    requires ms != []
    ensures (forall i | 0 <= i < |ms| :: !BeginsEmpty(ms[i])) <==>
      !BeginsEmpty(ms[0]) && forall i | 0 <= i < |ms[1..]| :: !BeginsEmpty(ms[1..][i])
  {
    assert forall i | 0 < i < |ms| :: ms[i] == ms[1..][i - 1];
  }

  // ---- The readers as loops ----

  /** A read of which the first bytes are there already. */
  function Begun(first: string, r: (Port, Read)): (Port, Read) { (r.0, r.1.(data := first + r.1.data)) }

  lemma {:induction false} BegunEmpty(first: string, q: Port, r: (Port, Read))
    ensures Begun("", r) == r && Begun(first, (q, Got(""))) == (q, Got(first)) && Begun(first, (q, Failed(""))) == (q, Failed(first))
    ensures BytesRead(q, 0) == (q, Got("")) && (q.rounds == [] ==> forall n: nat :: BytesRead(q, n) == (q, Got("")))
  {
    assert "" + r.1.data == r.1.data;
    assert first + "" == first;
  }

  lemma {:induction false} ReadMore(first: string, p: Port, n: nat)
    requires n > 0 && p.rounds != []
    ensures p.rounds[0].Ready? ==>
      var k := Min(Min(p.rounds[0].bytes, n), |p.stream|);
      var q := Port(p.stream[k..], p.rounds[1..]);
      Begun(first, BytesRead(p, n)) == Begun(first + p.stream[..k], BytesRead(q, n - k))
    ensures !p.rounds[0].Ready? ==>
      BytesRead(p, n) == (Port(p.stream, p.rounds[1..]), if p.rounds[0].Timeout? then Got("") else Failed(""))
  {
    if p.rounds[0].Ready? {
      var k := Min(Min(p.rounds[0].bytes, n), |p.stream|);
      Regroup(first, p.stream[..k], BytesRead(Port(p.stream[k..], p.rounds[1..]), n - k).1.data);
    }
  }

  lemma {:induction false} SlicesJoin(b: string, at: nat, m: nat, n: nat)
    requires at + m + n <= |b|
    ensures b[at..at + m + n] == b[at..at + m] + b[at + m..at + m + n]
  {
  }

  class SerialPort {
    var stream: string
    var rounds: seq<Round>

    function View(): Port
      reads this
    {
      Port(stream, rounds)
    }

    constructor (stream: string, rounds: seq<Round>)
      ensures View() == Port(stream, rounds)
    {
      this.stream, this.rounds := stream, rounds;
    }

    /** The system calls: wait, then take what is there, at most so many bytes. */
    method WaitAndRead(buffer: array<char>, at: nat, bsize: nat) returns (round: Round)
      requires at + bsize <= buffer.Length && rounds != []
      modifies this, buffer
      ensures rounds == old(rounds)[1..] && round.Ready? == old(rounds)[0].Ready?
      ensures round.Ready? ==>
        && round.bytes == Min(Min(old(rounds)[0].bytes, bsize), |old(stream)|)
        && stream == old(stream)[round.bytes..] && buffer[at..at + round.bytes] == old(stream)[..round.bytes]
      ensures !round.Ready? ==> round == old(rounds)[0] && stream == old(stream)
      ensures forall i | 0 <= i < buffer.Length && !(at <= i < at + if round.Ready? then round.bytes else 0) ::
                buffer[i] == old(buffer[i])
    {
      round := rounds[0];
      rounds := rounds[1..];
      if round.Ready? {
        var n := Min(Min(round.bytes, bsize), |stream|);
        round := Ready(n);
        forall i | 0 <= i < n {
          buffer[at + i] := stream[i];
        }
        stream := stream[n..];
      }
    }

    /** Accumulates partial reads until everything is there or a round brings nothing in time. The result is
        the number of bytes read, or negative. */
    method ReadBytes(buffer: array<char>, at: nat, bsize: nat) returns (ret: int)
      requires at + bsize <= buffer.Length
      modifies this, buffer
      ensures var (q, r) := BytesRead(old(View()), bsize);
        && View() == q && |r.data| <= bsize && ret == (if r.Got? then |r.data| else ERR_ERRNO)
        && buffer[at..at + |r.data|] == r.data
        && forall i | 0 <= i < buffer.Length && !(at <= i < at + |r.data|) :: buffer[i] == old(buffer[i])
    {
      hide BytesRead, Begun;
      var sum: nat := 0;
      ghost var first, whole := "", BytesRead(View(), bsize);
      BegunEmpty("", View(), whole);
      while sum < bsize
        invariant sum <= bsize && buffer[at..at + sum] == first
        invariant Begun(first, BytesRead(View(), bsize - sum)) == whole
        invariant forall i | 0 <= i < buffer.Length && !(at <= i < at + sum) :: buffer[i] == old(buffer[i])
        decreases |rounds|
      {
        if rounds == [] {
          BegunEmpty(first, View(), whole);
          return sum;
        }
        ghost var before, had := View(), buffer[at..at + sum];
        ReadMore(first, before, bsize - sum);
        var round := WaitAndRead(buffer, at + sum, bsize - sum);
        if !round.Ready? {
          BegunEmpty(first, View(), whole);
          return if round.Timeout? then sum else ERR_ERRNO;
        }
        first := first + before.stream[..round.bytes];
        assert buffer[at..at + sum] == had;
        SlicesJoin(buffer[..], at, sum, round.bytes);
        sum := sum + round.bytes;
      }
      BegunEmpty(first, View(), whole);
      return sum;
    }
  }

  const ERR_ERRNO: int := -1

  /** A number as the unsigned type of sizes holds it. */
  function Unsigned(n: int): nat
    requires -0x1_0000_0000_0000_0000 <= n
  {
    if n < 0 then n + 0x1_0000_0000_0000_0000 else n
  }

  /** The same bytes in a larger buffer, with whatever the memory holds behind them; or nothing. */
  method Realloc(a: array<char>, size: nat, lib: Library) returns (b: array?<char>)
    requires a.Length <= size
    ensures b == null <==> size == 0 && !lib.emptyBlocks
    ensures b != null ==> fresh(b) && b.Length == size && b[..a.Length] == a[..]
    ensures b != null ==> forall i | a.Length <= i < size :: b[i] == lib.memory(i)
  {
    if size == 0 && !lib.emptyBlocks {
      return null;
    }
    b := new char[size](i requires 0 <= i => lib.memory(i));
    forall i | 0 <= i < a.Length {
      b[i] := a[i];
    }
  }

  /** Reads a header into a small buffer. */
  method ReadBlockHeader(port: SerialPort, loc: array<char>, ghost got: string, empty: bool) returns (h: Header)
    requires loc.Length >= 9 && empty == (got == "")
    modifies port, loc
    ensures (port.View(), h) == ReadHeader(old(port.View()), got)
  {
    hide BytesRead, Scan, IsDigit;
    var ret := port.ReadBytes(loc, 0, 1);
    if ret < 1 {
      return Stop(if ret < 0 then LineError else if empty then NoMessage else FormatError);
    }
    ghost var (q, digit) := BytesRead(old(port.View()), 1);
    assert loc[..1] == loc[0..1] == digit.data && loc[0] == digit.data[0];
    if !IsDigit(loc[0]) {
      return Stop(Unscanned);
    }
    var sizeLength := Scan(loc[..1]);
    ghost var (r, size) := BytesRead(q, sizeLength);
    OneDigit(loc[..1]);
    ret := port.ReadBytes(loc, 0, sizeLength);
    if ret < sizeLength {
      return Stop(if ret >= 0 then FormatError else LineError);
    }
    if sizeLength == 0 {
      return Stop(FormatError);
    }
    assert loc[..sizeLength] == loc[0..sizeLength] == size.data && loc[0] == size.data[0];
    if !IsDigit(loc[0]) {
      return Stop(Unscanned);
    }
    return Size(Scan(loc[..sizeLength]));
  }

  lemma {:induction false} OneDigit(s: string)
    requires |s| == 1 && IsDigit(s[0])
    ensures Scan(s) <= 9
  {
    assert s[..1] == s && s[1..] == "";
    assert Value(s[..0]) == 0;
  }

  lemma {:induction false} ValueBound(s: string)
    requires forall c | c in s :: IsDigit(c)
    ensures Value(s) < Power(|s|)
  {
    if s != "" {
      ValueBound(s[..|s| - 1]);
      assert s[|s| - 1] in s;
    }
  }

  lemma {:induction false} PowerMonotonic(a: nat, b: nat)
    requires a <= b
    ensures Power(a) <= Power(b)
  {
    if a < b { PowerMonotonic(a, b - 1); }
  }

  /** A size has nine digits at most, so it is far from what an error becomes as an unsigned number. */
  lemma {:induction false} SizeBound(p: Port, got: string)
    ensures var h := ReadHeader(p, got).1; h.Size? ==> h.bytes < Power(9) <= Unsigned(ERR_ERRNO)
  {
    hide BytesRead, Value, Power, IsDigit;
    ReadIsPrefix(p, 1);
    var (q, digit) := BytesRead(p, 1);
    if digit.Got? && |digit.data| == 1 && IsDigit(digit.data[0]) {
      OneDigit(digit.data);
      ReadIsPrefix(q, Scan(digit.data));
      var size := BytesRead(q, Scan(digit.data)).1.data;
      ValueBound(size[..Digits(size)]);
      PowerMonotonic(Digits(size), 9);
    }
    PowerOfNine();
  }

  lemma {:induction false} PowerOfNine()
    ensures Power(9) == 1_000_000_000
  {
    assert Power(3) == 1000;
    assert Power(6) == 1000 * Power(3);
    assert Power(9) == 1000 * Power(6);
  }

  lemma {:induction false} MessageStep(p: Port, got: string, bsize: nat, lib: Library)
    ensures var (q, mark) := BytesRead(p, 1);
      ReadMessage(p, got, bsize, lib) ==
        if mark.Failed? || |mark.data| < 1 then (q, Short(mark, got))
        else if mark.data == "\n" then (q, if |got| > bsize then TooLong else Message(got))
        else if mark.data != "#" then (q, FormatError)
        else ReadBlock(q, got, bsize, lib)
  {
  }

  lemma {:induction false} BlockStep(p: Port, got: string, bsize: nat, lib: Library)
    ensures var (r, h) := ReadHeader(p, got);
      && (h.Stop? ==> ReadBlock(p, got, bsize, lib) == (r, h.outcome))
      && (h.Size? ==>
           var (t, block) := BytesRead(r, h.bytes);
           && |block.data| <= h.bytes
           && ReadBlock(p, got, bsize, lib) ==
             if Refuses(lib, |got|, h.bytes) then (r, OutOfMemory)
             else if block.Got? && |block.data| < h.bytes then (t, FormatError)
             else ReadMessage(t, got + Filled(block.data, h.bytes, |got|, lib.memory), bsize, lib))
  {
    var (r, h) := ReadHeader(p, got);
    if h.Size? { ReadIsPrefix(r, h.bytes); }
  }

  lemma {:induction false} FilledBuffer(b: string, got: string, stored: string, n: nat, memory: nat -> char)
    requires |b| == |got| + n && |stored| <= n
    requires b[..|got|] == got && b[|got|..|got| + |stored|] == stored
    requires forall i | |got| + |stored| <= i < |b| :: b[i] == memory(i)
    ensures b == got + Filled(stored, n, |got|, memory)
  {
    var c := got + Filled(stored, n, |got|, memory);
    forall i | 0 <= i < |b| ensures b[i] == c[i] {
      if i < |got| {
        assert b[i] == b[..|got|][i];
      } else if i < |got| + |stored| {
        assert b[i] == b[|got|..|got| + |stored|][i - |got|];
      }
    }
  }

  /** Reads a whole message: the blocks are collected in a buffer that grows, and copied when the end has come. */
  method ReadBinaryMessage(port: SerialPort, buffer: array<char>, lib: Library) returns (o: Outcome)
    modifies port, buffer
    ensures (port.View(), o) == ReadMessage(old(port.View()), "", buffer.Length, lib)
    ensures o.Message? ==> |o.data| <= buffer.Length && buffer[..|o.data|] == o.data
  {
    hide BytesRead, ReadHeader, ReadMessage, ReadBlock, Filled, Power;
    var loc := new char[10];
    var tmp := new char[0];
    assert tmp[..] == "";
    while true
      invariant fresh(tmp) && fresh(loc) && tmp != loc
      invariant ReadMessage(port.View(), tmp[..], buffer.Length, lib)
             == ReadMessage(old(port.View()), "", buffer.Length, lib)
      decreases |port.stream|
    {
      ghost var p, got := port.View(), tmp[..];
      assert got == "" <==> tmp.Length == 0;
      ReadIsPrefix(p, 1);
      MessageStep(p, got, buffer.Length, lib);
      var ret := port.ReadBytes(loc, 0, 1);
      if ret < 1 {
        return if ret < 0 then LineError else if tmp.Length == 0 then NoMessage else FormatError;
      }
      assert loc[0..1] == [loc[0]];
      if loc[0] == '\n' {
        if tmp.Length > buffer.Length {
          return TooLong;
        }
        forall i | 0 <= i < tmp.Length {
          buffer[i] := tmp[i];
        }
        assert buffer[..tmp.Length] == tmp[..] == got;
        return Message(tmp[..]);
      }
      if loc[0] != '#' {
        return FormatError;
      }
      ghost var q := port.View();
      BlockStep(q, got, buffer.Length, lib);
      SizeBound(q, got);
      var h := ReadBlockHeader(port, loc, got, tmp.Length == 0);
      if h.Stop? {
        return h.outcome;
      }
      var used := tmp.Length;
      ghost var r := port.View();
      ReadIsPrefix(r, h.bytes);
      var grown := Realloc(tmp, used + h.bytes, lib);
      if grown == null {
        return OutOfMemory;
      }
      tmp := grown;
      ret := port.ReadBytes(tmp, used, h.bytes);
      // an int is compared with a size: a negative result counts as a large one
      if Unsigned(ret) < h.bytes {
        return FormatError;
      }
      assert tmp[..used] == got;
      FilledBuffer(tmp[..], got, BytesRead(r, h.bytes).1.data, h.bytes, lib.memory);
    }
  }
}
