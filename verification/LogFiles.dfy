/** Writing to a trace file whose descriptor accepts data in pieces, and the log buffer in front of it. */
module LogFiles {
  import opened Basics

  // ---- The file and its environment ----

  datatype IoError = TimedOut | InvalidArgument | OutOfMemory | WriteFailed | Unknown

  /** What the operating system does with one round of waiting and writing. */
  datatype Outcome =
    | NotReady                    // the wait ran into its timeout
    | Interrupted                 // the wait or the write was interrupted by a signal
    | Accepts(bytes: nat)         // the write took this many bytes, or all that were offered
    | Fails(error: IoError)       // the wait or the write failed

  datatype Status = Ok | Err(error: IoError)

  /** What a complete write does: the bytes that reach the file, the rounds left over, the status.
      When no round is left the descriptor is never ready again, which is a timeout. */
  datatype Effect = Effect(accepted: string, rest: seq<Outcome>, status: Status)

  function WriteAll(data: string, env: seq<Outcome>): Effect
    decreases |env|
  {
    if data == "" then Effect("", env, Ok)
    else if env == [] then Effect("", [], Err(TimedOut))
    else
      match env[0]
      case NotReady => Effect("", env[1..], Err(TimedOut))
      case Fails(e) => Effect("", env[1..], Err(e))
      case Interrupted => WriteAll(data, env[1..])
      case Accepts(n) =>
        var k := Min(n, |data|);
        var later := WriteAll(data[k..], env[1..]);
        Effect(data[..k] + later.accepted, later.rest, later.status)
  }

  /** How many bytes the environment takes before it first fails. */
  function Capacity(env: seq<Outcome>): nat {
    if env == [] then 0
    else match env[0]
      case NotReady => 0
      case Fails(_) => 0
      case Interrupted => Capacity(env[1..])
      case Accepts(n) => n + Capacity(env[1..])
  }

  /** Exactly what reaches the file, and exactly when the write succeeds, however
      the bytes are split up and however often it is interrupted. */
  lemma {:induction false} WriteAllMeaning(data: string, env: seq<Outcome>)
    ensures WriteAll(data, env).status.Ok? <==> |data| <= Capacity(env)
    ensures WriteAll(data, env).accepted == data[..Min(Capacity(env), |data|)]
    decreases |env|
  {
    if data != "" && env != [] {
      match env[0]
      case NotReady =>
      case Fails(_) =>
      case Interrupted => WriteAllMeaning(data, env[1..]);
      case Accepts(n) =>
        var k := Min(n, |data|);
        WriteAllMeaning(data[k..], env[1..]);
        var m := Min(Capacity(env[1..]), |data| - k);
        assert data[..k] + data[k..][..m] == data[..k + m];
    }
  }

  /** What the rest of a write does after `sent` has reached the file. */
  function Sent(sent: string, e: Effect): Effect { e.(accepted := sent + e.accepted) }

  lemma {:induction false} AcceptStep(sent: string, data: string, env: seq<Outcome>)
    requires data != "" && env != [] && env[0].Accepts?
    ensures var k := Min(env[0].bytes, |data|);
      Sent(sent, WriteAll(data, env)) == Sent(sent + data[..k], WriteAll(data[k..], env[1..]))
  {
    var k := Min(env[0].bytes, |data|);
    var later := WriteAll(data[k..], env[1..]).accepted;
    assert sent + (data[..k] + later) == sent + data[..k] + later;
  }

  lemma {:induction false} StopStep(sent: string, data: string, env: seq<Outcome>)
    requires data == "" || env == [] || !env[0].Accepts?
    ensures WriteAll(data, env) ==
      if data == "" then Effect("", env, Ok)
      else if env == [] then Effect("", [], Err(TimedOut))
      else if env[0].Interrupted? then WriteAll(data, env[1..])
      else Effect("", env[1..], Err(if env[0].Fails? then env[0].error else TimedOut))
    ensures sent + "" == sent
  {
  }

  class OutputFile {
    var content: string
    var env: seq<Outcome>

    constructor (env: seq<Outcome>)
      ensures content == "" && this.env == env
    {
      content, this.env := "", env;
    }

    /** The system calls: wait until writable, then write; at most `count` bytes are taken. */
    method WaitAndWrite(data: array<char>, start: nat, count: nat) returns (o: Outcome)
      requires 0 < count && start + count <= data.Length
      modifies this
      ensures old(env) == [] ==> o == NotReady && env == [] && content == old(content)
      ensures old(env) != [] ==> env == old(env)[1..]
      ensures old(env) != [] && old(env)[0].Accepts? ==>
        && o == Accepts(Min(old(env)[0].bytes, count))
        && content == old(content) + data[start..start + o.bytes]
      ensures old(env) != [] && !old(env)[0].Accepts? ==> o == old(env)[0] && content == old(content)
    {
      if env == [] {
        return NotReady;
      }
      o := env[0];
      env := env[1..];
      if o.Accepts? {
        o := Accepts(Min(o.bytes, count));
        content := content + data[start..start + o.bytes];
      }
    }

    method WriteToFile(buffer: array<char>, count: nat) returns (status: Status)
      requires count <= buffer.Length
      modifies this
      ensures var e := WriteAll(buffer[..count], old(env));
        content == old(content) + e.accepted && env == e.rest && status == e.status
    {
      hide WriteAll;
      var written: nat := 0;
      ghost var sent := content;
      while written < count
        invariant written <= count
        invariant Sent(content, WriteAll(buffer[written..count], env)) == Sent(sent, WriteAll(buffer[..count], old(env)))
        decreases |env|, count - written
      {
        ghost var pending := buffer[written..count];
        ghost var before, was := env, content;
        var o := WaitAndWrite(buffer, written, count - written);
        if o.Accepts? {
          AcceptStep(was, pending, before);
          assert |pending| == count - written;
          forall i | 0 <= i < |pending| ensures pending[i] == buffer[written + i] {
          }
          assert pending[o.bytes..] == buffer[written + o.bytes..count];
          assert pending[..o.bytes] == buffer[written..written + o.bytes];
          written := written + o.bytes;
        } else {
          StopStep(was, pending, before);
          if !o.Interrupted? {
            return Err(if o.Fails? then o.error else TimedOut);
          }
        }
      }
      StopStep(content, buffer[written..count], env);
      return Ok;
    }
  }

  // ---- The log buffer ----

  /** The log buffer's state: what is on file, what waits in memory, and whether logging is on. */
  datatype Log = Log(file: string, pending: string, enabled: bool, env: seq<Outcome>)

  /** On success the buffer is empty; on failure logging is off and the buffer is kept. */
  function Flush(s: Log): (Log, Status) {
    var e := WriteAll(s.pending, s.env);
    if e.status.Ok? then (s.(file := s.file + e.accepted, pending := "", env := e.rest), Ok)
    else (s.(file := s.file + e.accepted, enabled := false, env := e.rest), e.status)
  }

  /** Logs one message through a buffer of `size` characters. */
  function Put(s: Log, size: nat, always: bool, message: string): (Log, Status) {
    if !s.enabled then (s, Ok)
    else
      var (s1, r1) := if |s.pending| + |message| >= size then Flush(s) else (s, Ok);
      if r1.Err? then (s1, r1)
      else
        var s2 := s1.(pending := s1.pending + message);
        if always then Flush(s2) else (s2, Ok)
  }

  class LogBuffer {
    const buffer: array<char>
    const file: OutputFile
    var bufferPos: nat
    var isEnabled: bool
    var alwaysFlush: bool

    ghost predicate Valid()
      reads this
    {
      bufferPos <= buffer.Length
    }

    /** The heap's view of the log. */
    ghost function State(): Log
      requires Valid()
      reads this, buffer, file
    {
      Log(file.content, buffer[..bufferPos], isEnabled, file.env)
    }

    constructor (size: nat, env: seq<Outcome>)
      ensures Valid() && State() == Log("", "", true, env) && !alwaysFlush
      ensures buffer.Length == size && fresh(buffer) && fresh(file)
    {
      buffer := new char[size];
      file := new OutputFile(env);
      bufferPos, isEnabled, alwaysFlush := 0, true, false;
    }

    method FlushLog() returns (status: Status)
      requires Valid()
      modifies this, file
      ensures Valid() && alwaysFlush == old(alwaysFlush)
      ensures (State(), status) == Flush(old(State()))
    {
      status := file.WriteToFile(buffer, bufferPos);
      if status.Err? {
        isEnabled := false;
        return;
      }
      bufferPos := 0;
    }

    /** A message must fit an empty buffer: longer ones would be copied past its end. */
    method WriteLog(message: string) returns (status: Status)
      requires Valid() && |message| <= buffer.Length
      modifies this, buffer, file
      ensures Valid() && alwaysFlush == old(alwaysFlush)
      ensures (State(), status) == Put(old(State()), buffer.Length, alwaysFlush, message)
    {
      if !isEnabled {
        return Ok;
      }
      var len := |message|;
      if bufferPos + len >= buffer.Length {
        status := FlushLog();
        if status.Err? {
          return;
        }
      }
      ghost var pending := buffer[..bufferPos];
      forall i | 0 <= i < len {
        buffer[bufferPos + i] := message[i];
      }
      bufferPos := bufferPos + len;
      assert buffer[..bufferPos] == pending + message;
      if alwaysFlush {
        status := FlushLog();
        if status.Err? {
          return;
        }
      }
      return Ok;
    }
  }

  // ---- Runs ----

  /** One call: the message and whether flushing is forced at that moment. */
  datatype Call = Call(message: string, always: bool)

  function Run(s: Log, size: nat, calls: seq<Call>): Log
    decreases |calls|
  {
    if calls == [] then s
    else Run(Put(s, size, calls[0].always, calls[0].message).0, size, calls[1..])
  }

  function Text(calls: seq<Call>): string {
    if calls == [] then "" else calls[0].message + Text(calls[1..])
  }

  ghost predicate Prefix(a: string, b: string) { a <= b }

  /** A flush moves the pending text to the file, or a prefix of it when the environment fails. */
  lemma {:induction false} FlushKeepsText(s: Log)
    ensures var (t, r) := Flush(s);
      && (r.Ok? ==> t.file == s.file + s.pending && t.pending == "" && t.enabled == s.enabled)
      && (r.Err? ==> t.pending == s.pending && !t.enabled)
      && Prefix(s.file, t.file) && Prefix(t.file, s.file + s.pending)
  {
    WriteAllMeaning(s.pending, s.env);
    var k := Min(Capacity(s.env), |s.pending|);
    assert s.file + s.pending == (s.file + s.pending[..k]) + s.pending[k..];
  }

  lemma {:induction false} PrefixExtends(a: string, b: string, c: string)
    requires Prefix(a, b)
    ensures Prefix(a, b + c)
  {
  }

  /** One message: nothing is lost or reordered, the buffer never overflows, and a failure
      leaves a prefix of the pending text on file and switches logging off. */
  lemma {:induction false} PutKeepsText(s: Log, size: nat, always: bool, message: string)
    requires s.enabled && |s.pending| <= size && |message| <= size
    ensures var (t, r) := Put(s, size, always, message);
      && |t.pending| <= size
      && t.enabled == r.Ok?
      && (r.Ok? ==> t.file + t.pending == s.file + s.pending + message)
      && Prefix(s.file, t.file) && Prefix(t.file, s.file + s.pending + message)
  {
    var flush := |s.pending| + |message| >= size;
    var (s1, r1) := if flush then Flush(s) else (s, Ok);
    FlushKeepsText(s);
    assert Prefix(s1.file, s.file + s.pending);
    PrefixExtends(s1.file, s.file + s.pending, message);
    if r1.Ok? {
      PutAfterFlush(s1, message);
      assert s1.file + s1.pending == s.file + s.pending;
    }
  }

  /** What is on file after a message: everything when each message is to be flushed, otherwise nothing new
      unless the message would have filled the buffer; then what was waiting in front of it. */
  lemma {:induction false} WhenWritten(s: Log, size: nat, always: bool, message: string)
    requires s.enabled && Put(s, size, always, message).1.Ok?
    ensures Put(s, size, always, message).0.file ==
      if always then s.file + s.pending + message
      else if |s.pending| + |message| < size then s.file
      else s.file + s.pending
  {
    var (s1, r1) := if |s.pending| + |message| >= size then Flush(s) else (s, Ok);
    FlushKeepsText(s);
    FlushKeepsText(s1.(pending := s1.pending + message));
    assert s1.file + s1.pending == s.file + s.pending by {
      assert s.file + s.pending + "" == s.file + s.pending;
    }
    assert s1.file + (s1.pending + message) == s1.file + s1.pending + message;
  }

  /** The second half of logging a message, once there is room for it. */
  lemma {:induction false} PutAfterFlush(s1: Log, message: string)
    ensures var s2 := s1.(pending := s1.pending + message);
      var (t, r) := Flush(s2);
      && s2.file + s2.pending == s1.file + s1.pending + message
      && (r.Ok? ==> t.file + t.pending == s1.file + s1.pending + message)
      && Prefix(s1.file, t.file) && Prefix(t.file, s1.file + s1.pending + message)
      && Prefix(s1.file, s1.file + s1.pending + message)
  {
    var s2 := s1.(pending := s1.pending + message);
    FlushKeepsText(s2);
    assert s2.file + s2.pending == s1.file + s1.pending + message;
    assert s1.file + s1.pending + message == s1.file + (s1.pending + message);
  }

  /** Buffered logging equals unbuffered logging over every run: as long as logging is on, file and
      buffer together hold the whole text; after an error the file holds a prefix of it for good. */
  lemma {:induction false} BufferedEqualsUnbuffered(s: Log, size: nat, calls: seq<Call>)
    requires |s.pending| <= size
    requires forall c | c in calls :: |c.message| <= size
    ensures var t := Run(s, size, calls);
      && |t.pending| <= size
      && (t.enabled ==> s.enabled && t.file + t.pending == s.file + s.pending + Text(calls))
      && Prefix(s.file, t.file)
      && (s.enabled ==> Prefix(t.file, s.file + s.pending + Text(calls)))
      && (!s.enabled ==> t == s)
    decreases |calls|
  {
    hide Put;
    if calls == [] {
      assert s.file + s.pending + "" == s.file + s.pending;
    } else {
      assert calls[0] in calls;
      var c := calls[0];
      var (s1, r1) := Put(s, size, c.always, c.message);
      if s.enabled {
        PutKeepsText(s, size, c.always, c.message);
        BufferedEqualsUnbuffered(s1, size, calls[1..]);
        TextSplits(s.file + s.pending, s1.file, calls);
      } else {
        PutWhenOff(s, size, c.always, c.message);
        BufferedEqualsUnbuffered(s, size, calls[1..]);
      }
    }
  }

  lemma {:induction false} PutWhenOff(s: Log, size: nat, always: bool, message: string)
    requires !s.enabled
    ensures Put(s, size, always, message).0 == s
  {
  }

  lemma {:induction false} TextSplits(before: string, file: string, calls: seq<Call>)
    requires calls != [] && Prefix(file, before + calls[0].message)
    ensures before + Text(calls) == before + calls[0].message + Text(calls[1..])
    ensures Prefix(file, before + Text(calls))
  {
    var m, later := calls[0].message, Text(calls[1..]);
    assert before + (m + later) == before + m + later;
    PrefixExtends(file, before + m, later);
  }

  /** Closing the log: logging is switched on again, the end tag is logged, the buffer is flushed. */
  function Finish(s: Log, size: nat, always: bool, endTag: string): (Log, Status) {
    var (s1, r1) := Put(s.(enabled := true), size, always, endTag);
    if r1.Err? then (s1, r1) else Flush(s1)
  }

  /** A log that is closed without an error after a run without an error is exactly its text. */
  lemma {:induction false} CleanRunIsComplete(size: nat, env: seq<Outcome>, calls: seq<Call>, always: bool, endTag: string)
    requires forall c | c in calls :: |c.message| <= size
    requires |endTag| <= size
    ensures var s := Run(Log("", "", true, env), size, calls);
      var (t, r) := Finish(s, size, always, endTag);
      s.enabled && r.Ok? ==> t.file == Text(calls) + endTag && t.pending == ""
  {
    var s0 := Log("", "", true, env);
    var s := Run(s0, size, calls);
    BufferedEqualsUnbuffered(s0, size, calls);
    if s.enabled {
      assert s.(enabled := true) == s;
      PutKeepsText(s, size, always, endTag);
      var (s1, r1) := Put(s, size, always, endTag);
      if r1.Ok? {
        WriteAllMeaning(s1.pending, s1.env);
        assert s0.file + s0.pending + Text(calls) == Text(calls);
        assert s.file + s.pending == Text(calls);
        assert s1.file + s1.pending == Text(calls) + endTag;
      }
    }
  }

  /** After a failed flush the buffer is kept although part of it may be on file already, so closing
      the log writes that part twice. The log is intact exactly when the failed flush wrote nothing. */
  lemma {:induction false} FinishAfterFailedFlush(s: Log, size: nat, always: bool, endTag: string)
    requires |s.pending| <= size && |endTag| <= size
    requires Flush(s).1.Err?
    requires Finish(Flush(s).0, size, always, endTag).1.Ok?
    ensures var t := Finish(Flush(s).0, size, always, endTag).0;
      && t.file == s.file + s.pending[..Min(Capacity(s.env), |s.pending|)] + s.pending + endTag
      && (t.file == s.file + s.pending + endTag <==> Capacity(s.env) == 0)
  {
    WriteAllMeaning(s.pending, s.env);
    var f := Flush(s).0;
    var on := f.(enabled := true);
    PutKeepsText(on, size, always, endTag);
    var (s1, r1) := Put(on, size, always, endTag);
    WriteAllMeaning(s1.pending, s1.env);
    assert s1.file + s1.pending == f.file + s.pending + endTag;
    if Capacity(s.env) == 0 {
      assert s.pending[..0] == "";
    } else {
      assert |s.file + s.pending + endTag| != |s.file + s.pending[..Capacity(s.env)] + s.pending + endTag|;
    }
  }
}
