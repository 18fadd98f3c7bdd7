/** The trace object: a growing array of reusable state objects over the log buffer. */
module TraceWriters {
  import opened StringBuffers
  import opened StateLogs
  import Files = LogFiles

  // ---- One state object ----

  /** Accumulates one traced call; the same object serves every later call at its depth. */
  class TraceState {
    const name: StringBuffer
    const attributes: StringBuffer
    const elements: StringBuffer
    var startTime: Time
    var endTime: Time
    var hasNested: bool
    ghost const depth: nat          // its place in the array

    ghost predicate Valid()
      reads this, name, attributes, elements
    {
      && name.place == 3 * depth && attributes.place == 3 * depth + 1 && elements.place == 3 * depth + 2
      && name.Valid() && attributes.Valid() && elements.Valid()
    }

    function Frame(): Frame
      reads this, name, attributes, elements
    {
      StateLogs.Frame(name.Contents(), attributes.Contents(), elements.Contents(), startTime, hasNested)
    }

    constructor (now: Time, ghost depth: nat)
      ensures Valid() && this.depth == depth
      ensures fresh(name) && fresh(attributes) && fresh(elements)
    {
      this.depth := depth;
      name := new StringBuffer(3 * depth);
      attributes := new StringBuffer(3 * depth + 1);
      elements := new StringBuffer(3 * depth + 2);
      startTime, endTime, hasNested := now, now, false;
    }

    /** Nothing of an earlier use survives, whatever the object held. */
    method Start(n: string, now: Time)
      requires Valid()
      modifies this, name, attributes, elements
      ensures Valid() && Frame() == StateLogs.Frame(n, "", "", now, false)
    {
      name.Set(n);
      attributes.Clear();
      elements.Clear();
      startTime, endTime, hasNested := now, now, false;
    }

    method End(now: Time)
      modifies this`endTime
      ensures endTime == now
    {
      endTime := now;
    }

    /** The state's own tag. */
    method CreateTag(depth: nat, indentation: string, offset: int) returns (tag: string)
      requires Valid() && indentation == Tabs(depth)
      ensures tag == Text(Tag(depth, Info(name.Contents(), attributes.Contents(), elements.Contents(),
                                          startTime, endTime)), offset)
    {
      var head := indentation + "<" + name.Contents() + " " + attributes.Contents()
        + " time='" + Stamp(startTime, offset) + "' end='" + Stamp(endTime, offset) + "'";
      if elements.length > 0 {
        tag := head + (">\n" + elements.Contents() + "</" + name.Contents() + ">\n");
      } else {
        tag := head + "/>\n";
      }
    }
  }

  // ---- The array of state objects ----

  /** Every object sits at its own depth, so no two of them share memory. */
  ghost predicate ValidStates(states: array<TraceState?>, memory: set<object>)
    reads states, memory
  {
    && states !in memory
    && forall i | 0 <= i < states.Length && states[i] != null ::
      && states[i] in memory && states[i].name in memory
      && states[i].attributes in memory && states[i].elements in memory
      && states[i].depth == i && states[i].Valid()
  }

  /** The open states are held by the objects at their depths. */
  ghost predicate Holds(states: array<TraceState?>, memory: set<object>, open: seq<Frame>)
    reads states, memory
  {
    && ValidStates(states, memory)
    && |open| <= states.Length
    && forall i | 0 <= i < |open| :: states[i] != null && states[i].Frame() == open[i]
  }

  lemma {:induction false} NoneHeld(states: array<TraceState?>, memory: set<object>, open: seq<Frame>)
    requires Holds(states, memory, open)
    ensures Holds(states, memory, [])
  {
  }

  ghost predicate Apart(a: TraceState, b: TraceState) {
    a != b && {a.name, a.attributes, a.elements} !! {b.name, b.attributes, b.elements}
  }

  lemma {:induction false} DepthsAreApart(a: TraceState, b: TraceState)
    requires a.Valid() && b.Valid() && a.depth != b.depth
    ensures Apart(a, b)
  {
  }

  /** A larger array with the same objects. */
  method Enlarge(states: array<TraceState?>, d: nat, max: int) returns (newStates: array<TraceState?>)
    requires states.Length <= d < max
    ensures fresh(newStates) && d < newStates.Length && states.Length <= newStates.Length
    ensures forall k | 0 <= k < newStates.Length ::
      newStates[k] == if k < states.Length then states[k] else null
  {
    var newSize := states.Length * 2;
    if newSize > max {
      newSize := max;
    }
    if newSize <= d {
      newSize := d + 1;
    }
    newStates := new TraceState?[newSize](_ => null);
    var i := 0;
    while i < states.Length
      invariant 0 <= i <= states.Length <= newSize
      invariant forall k | 0 <= k < i :: newStates[k] == states[k]
      invariant forall k | i <= k < newSize :: newStates[k] == null
    {
      newStates[i] := states[i];
      i := i + 1;
    }
  }

  method CreateState(states: array<TraceState?>, ghost memory: set<object>, ghost open: seq<Frame>, d: nat, now: Time)
      returns (ghost grown: set<object>)
    requires Holds(states, memory, open) && |open| <= d < states.Length && states[d] == null
    modifies states
    ensures Holds(states, grown, open) && memory <= grown && fresh(grown - memory)
    ensures states[d] != null
  {
    var s := new TraceState(now, d);
    states[d] := s;
    grown := memory + {s, s.name, s.attributes, s.elements};
  }

  /** Starts a state at depth `d` in the object that is there, whatever it last held;
      a new object is made only where there is none. No open state is disturbed. */
  method ProvideState(states: array<TraceState?>, ghost memory: set<object>, ghost open: seq<Frame>,
                 d: nat, name: string, now: Time) returns (ghost grown: set<object>)
    requires Holds(states, memory, open) && |open| == d < states.Length
    modifies states, memory
    ensures Holds(states, grown, open + [Frame(name, "", "", now, false)])
    ensures memory <= grown && fresh(grown - memory)
  {
    grown := memory;
    if states[d] == null {
      grown := CreateState(states, memory, open, d, now);
    }
    var s := states[d];
    forall i | 0 <= i < states.Length && states[i] != null && i != d ensures Apart(s, states[i]) {
      DepthsAreApart(s, states[i]);
    }
    s.Start(name, now);
  }

  /** Raises the nested flag of an open state; like the two methods below it disturbs no other one. */
  method SetNested(ghost states: array<TraceState?>, ghost memory: set<object>, ghost open: seq<Frame>,
                   ghost d: nat, s: TraceState)
    requires Holds(states, memory, open) && d < |open| && states[d] == s
    modifies s`hasNested
    ensures Holds(states, memory, open[d := open[d].(nested := true)])
  {
    s.hasNested := true;
  }

  method AppendAttributes(ghost states: array<TraceState?>, ghost memory: set<object>, ghost open: seq<Frame>,
                          ghost d: nat, s: TraceState, text: string)
    requires Holds(states, memory, open) && d < |open| && states[d] == s
    modifies s.attributes
    ensures Holds(states, memory, open[d := open[d].(attributes := open[d].attributes + text)])
  {
    forall i | 0 <= i < states.Length && states[i] != null && i != d ensures Apart(s, states[i]) {
      DepthsAreApart(s, states[i]);
    }
    s.attributes.Append(text);
  }

  method AppendElements(ghost states: array<TraceState?>, ghost memory: set<object>, ghost open: seq<Frame>,
                        ghost d: nat, s: TraceState, text: string)
    requires Holds(states, memory, open) && d < |open| && states[d] == s
    modifies s.elements
    ensures Holds(states, memory, open[d := open[d].(elements := open[d].elements + text)])
  {
    forall i | 0 <= i < states.Length && states[i] != null && i != d ensures Apart(s, states[i]) {
      DepthsAreApart(s, states[i]);
    }
    s.elements.Append(text);
  }

  // ---- The trace ----

  class TraceWriter {
    var functionDepth: int
    var maxNestingDepth: int
    var states: array<TraceState?>
    var whitespace: string          // one tab more than there are states
    const log: Files.LogBuffer
    const initSec: int
    ghost const header: string
    ghost var open: seq<Frame>      // the recorded open states, while logging is on
    ghost var messages: seq<Message>
    ghost var failed: bool          // some write to the log has failed
    ghost var memory: set<object>   // the state objects and their buffers

    /** The trace as the specification sees it. */
    ghost function Model(): Trace
      reads this, log
    {
      Trace(functionDepth, maxNestingDepth, log.isEnabled, open, messages)
    }

    /** Unless a write has failed, file and buffer together hold exactly the messages' text. */
    ghost predicate LogHolds()
      reads this`messages, this`failed, log, log.buffer, log.file
    {
      && log.Valid()
      && (!failed ==> log.State().file + log.State().pending == header + AllText(messages, initSec))
    }

    ghost predicate Valid()
      reads this, states, memory, log, log.buffer, log.file
    {
      && this !in memory && log !in memory && log.buffer !in memory && log.file !in memory
      && whitespace == Tabs(states.Length + 1)
      && Holds(states, memory, open)
      && LogHolds()
      && Model().Valid() && (!log.isEnabled ==> open == [])
    }

    /** A message that fits the log buffer. */
    ghost predicate Fits(m: Message) {
      |Text(m, initSec)| <= log.buffer.Length
    }

    constructor (maxDepth: int, now: Time, program: string, bufferSize: nat, env: seq<Files.Outcome>)
      requires |program| <= bufferSize
      ensures fresh(log) && fresh(log.buffer) && fresh(log.file) && fresh(states) && memory == {}
      ensures Valid() && Model() == Idle(maxDepth, false, [])
      ensures header == program && initSec == now.sec && log.buffer.Length == bufferSize && !failed
    {
      log := new Files.LogBuffer(bufferSize, env);
      functionDepth, maxNestingDepth := -1, maxDepth;
      states := new TraceState?[8](_ => null);
      whitespace := Tabs(9);
      initSec, header := now.sec, program;
      open, messages, failed, memory := [], [], false, {};
      new;
      assert Holds(states, memory, open);
      assert program + AllText([], initSec) == program;
      hide Holds, ValidStates, AllText, Files.Put;
      ghost var before := log.State();
      var status := log.WriteLog(program);
      Files.PutKeepsText(before, bufferSize, false, program);
      assert "" + "" + program == program;
      log.isEnabled := false;
    }

    // ---- Settings ----

    /** Switching logging is meaningful only outside every state. */
    method SetEnabled(on: bool)
      requires Valid() && functionDepth == -1
      modifies this`open, log`isEnabled
      ensures Valid() && Model() == old(Model()).(enabled := on, open := [])
      ensures failed == old(failed)
    {
      log.isEnabled := on;
      open := [];
    }

    method SetNestedDepth(depth: int) returns (ok: bool)
      requires Valid()
      modifies this`maxNestingDepth, this`open
      ensures Valid() && ok == (functionDepth == -1)
      ensures Model() == if ok then old(Model()).(max := depth, open := []) else old(Model())
    {
      if functionDepth != -1 {
        return false;
      }
      maxNestingDepth := depth;
      open := [];
      return true;
    }

    // ---- Writing ----

    /** `count` tabs: the tail of the whitespace string. */
    function Indentation(count: nat): (s: string)
      requires whitespace == Tabs(states.Length + 1) && count <= states.Length
      reads this
      ensures s == Tabs(count)
    {
      whitespace[states.Length + 1 - count..]
    }

    /** Writes a message; when that fails logging is off and no state is open any more. */
    method Emit(ghost m: Message, text: string) returns (status: Files.Status)
      requires Valid() && log.isEnabled && text == Text(m, initSec) && Fits(m)
      modifies this`messages, this`failed, this`open, log, log.buffer, log.file
      ensures Valid() && log.isEnabled == status.Ok?
      ensures status.Ok? ==> messages == old(messages) + [m] && open == old(open)
      ensures failed == (old(failed) || status.Err?)
    {
      hide Holds, ValidStates, Text;
      NoneHeld(states, memory, open);
      ghost var before := log.State();
      status := log.WriteLog(text);
      Files.PutKeepsText(before, log.buffer.Length, log.alwaysFlush, text);
      messages := messages + [m];
      if status.Err? {
        failed := true;
        open := [];
      }
      assert messages[..|messages| - 1] == old(messages);
      assert header + AllText(old(messages), initSec) + text == header + (AllText(old(messages), initSec) + text);
    }

    // ---- The calls ----

    method MarkNested(d: nat, parent: TraceState)
      requires Valid() && log.isEnabled && d < |open| && states[d] == parent
      modifies this`open, parent`hasNested
      ensures Valid() && open == old(open)[d := old(open)[d].(nested := true)]
    {
      SetNested(states, memory, open, d, parent);
      open := open[d := open[d].(nested := true)];
      assert LogHolds();
    }

    /** The first recorded child of the open state at depth `d` opens its nested element. */
    method OpenNested(d: nat, parent: TraceState) returns (status: Files.Status)
      requires Valid() && log.isEnabled && d < |open| && states[d] == parent && (!open[d].nested ==> Fits(NestedOpen(d)))
      modifies this`open, this`messages, this`failed, parent`hasNested, log, log.buffer, log.file
      ensures Valid() && log.isEnabled == status.Ok? && failed == (old(failed) || status.Err?)
      ensures status.Ok? ==>
        && open == old(open)[d := old(open)[d].(nested := true)]
        && messages == old(messages) + if old(open)[d].nested then [] else [NestedOpen(d)]
    {
      status := Files.Ok;
      if !parent.hasNested {
        status := Emit(NestedOpen(d), Indentation(d) + "<Nested>\n");
        if status.Ok? {
          MarkNested(d, parent);
        }
      } else {
        assert open == open[d := open[d].(nested := true)];
      }
    }

    /** Room for one more depth in the array and in the whitespace string. */
    method MakeRoom(d: nat)
      requires Valid() && d < maxNestingDepth
      modifies this`states, this`whitespace
      ensures Valid() && d < states.Length && (fresh(states) || states == old(states))
    {
      if d >= states.Length {
        states := Enlarge(states, d, maxNestingDepth);
        whitespace := Tabs(states.Length + 1);
        assert Holds(states, memory, open);
      }
    }

    /** Goes one level deeper into a state that is recorded. */
    method PushState(name: string, now: Time)
      requires Valid() && log.isEnabled && functionDepth + 1 < maxNestingDepth
      requires functionDepth + 1 < states.Length
      modifies this`functionDepth, this`open, this`memory, states, memory
      ensures Valid() && fresh(memory - old(memory))
      ensures functionDepth == old(functionDepth) + 1
      ensures open == old(open) + [Frame(name, "", "", now, false)]
    {
      hide Holds, ValidStates, LogHolds, Text;
      memory := ProvideState(states, memory, open, functionDepth + 1, name, now);
      open := open + [Frame(name, "", "", now, false)];
      functionDepth := functionDepth + 1;
      assert LogHolds();
    }

    /** The start of a state that is recorded. */
    method RecordStart(name: string, now: Time) returns (status: Files.Status)
      requires Valid() && log.isEnabled && functionDepth + 1 < maxNestingDepth
      requires functionDepth >= 0 && !open[functionDepth].nested ==> Fits(NestedOpen(functionDepth))
      modifies this, states, memory, log, log.buffer, log.file
      ensures Valid() && (fresh(states) || states == old(states)) && fresh(memory - old(memory))
      ensures functionDepth == old(functionDepth) + 1 && maxNestingDepth == old(maxNestingDepth)
      ensures failed == (old(failed) || status.Err?) && log.isEnabled == status.Ok?
      ensures status.Ok? ==>
        var d, frame := functionDepth, Frame(name, "", "", now, false);
        if d > 0 && !old(open)[d - 1].nested then
          && open == old(open)[d - 1 := old(open)[d - 1].(nested := true)] + [frame]
          && messages == old(messages) + [NestedOpen(d - 1)]
        else
          open == old(open) + [frame] && messages == old(messages)
    {
      hide Holds, ValidStates, LogHolds, Text;
      status := Files.Ok;
      MakeRoom(functionDepth + 1);
      PushState(name, now);
      if functionDepth > 0 {
        PushedThenNested(old(open), Frame(name, "", "", now, false));
        var parent := StateAt(functionDepth - 1);
        status := OpenNested(functionDepth - 1, parent);
      }
    }

    /** The object of an open state. */
    method StateAt(d: nat) returns (s: TraceState)
      requires Valid() && d < |open|
      ensures d < states.Length && states[d] == s && s in memory
      ensures s.name in memory && s.attributes in memory && s.elements in memory
    {
      s := states[d];
    }

    /** The start of a state. */
    method LogStateStart(name: string, now: Time) returns (status: Files.Status)
      requires Valid()
      requires name != "" && log.isEnabled && 0 <= functionDepth < maxNestingDepth - 1 && !open[functionDepth].nested ==>
        Fits(NestedOpen(functionDepth))
      modifies this, states, memory, log, log.buffer, log.file
      ensures Valid() && (fresh(states) || states == old(states)) && fresh(memory - old(memory))
      ensures functionDepth == old(functionDepth) + if name == "" then 0 else 1
      ensures status.Ok? || name == "" ==> Model() == StartState(old(Model()), name, now)
      ensures name == "" ==> status == Files.Err(Files.InvalidArgument) && failed == old(failed)
      ensures name != "" ==> (status.Err? ==> !log.isEnabled) && failed == (old(failed) || status.Err?)
    {
      hide Holds, ValidStates, LogHolds, Text;
      if name == "" {
        return Files.Err(Files.InvalidArgument);
      }
      if functionDepth + 1 >= maxNestingDepth || !log.isEnabled {
        functionDepth := functionDepth + 1;
        return Files.Ok;
      }
      status := RecordStart(name, now);
    }

    /** It makes no difference whether the parent is marked before or after its child is pushed. */
    static lemma {:induction false} PushedThenNested(os: seq<Frame>, f: Frame)
      requires os != []
      ensures var d := |os| - 1;
        && (os + [f])[d := (os + [f])[d].(nested := true)] == os[d := os[d].(nested := true)] + [f]
        && (os[d].nested ==> os[d := os[d].(nested := true)] == os)
    {
    }

    method LogAttributes(text: string) returns (ok: bool)
      requires Valid()
      modifies this`open, memory
      ensures Valid() && ok == (functionDepth >= 0)
      ensures Model() == LogAttribute(old(Model()), text)
    {
      if functionDepth < 0 {
        return false;
      }
      if !log.isEnabled || functionDepth >= maxNestingDepth {
        return true;
      }
      hide Holds, ValidStates, LogHolds, Text;
      ghost var had := open[functionDepth].attributes;
      assert had + (text + " ") == had + text + " ";
      RecordAttributes(text + " ");
      return true;
    }

    method RecordAttributes(text: string)
      requires Valid() && log.isEnabled && 0 <= functionDepth < |open|
      modifies this`open, memory
      ensures var d := functionDepth;
        Valid() && open == old(open)[d := old(open)[d].(attributes := old(open)[d].attributes + text)]
    {
      hide Holds, ValidStates, LogHolds, Text;
      var s := StateAt(functionDepth);
      AppendAttributes(states, memory, open, functionDepth, s, text);
      ghost var d := functionDepth;
      open := open[d := open[d].(attributes := open[d].attributes + text)];
      assert LogHolds();
    }

    method RecordElement(text: string)
      requires Valid() && log.isEnabled && 0 <= functionDepth < |open|
      modifies this`open, memory
      ensures var d := functionDepth;
        Valid() && open == old(open)[d := old(open)[d].(elements := old(open)[d].elements + text)]
    {
      hide Holds, ValidStates, LogHolds, Text;
      var s := StateAt(functionDepth);
      AppendElements(states, memory, open, functionDepth, s, text);
      ghost var d := functionDepth;
      open := open[d := open[d].(elements := open[d].elements + text)];
      assert LogHolds();
    }

    method LogElement(name: string, value: string) returns (ok: bool)
      requires Valid()
      modifies this`open, memory
      ensures Valid() && ok == (name != "" && functionDepth >= 0)
      ensures Model() == StateLogs.LogElement(old(Model()), name, value)
    {
      if name == "" || functionDepth < 0 {
        return false;
      }
      if !log.isEnabled || functionDepth >= maxNestingDepth {
        return true;
      }
      hide Holds, ValidStates, LogHolds, Text;
      RecordElement(Indentation(functionDepth + 1) + "<" + name + " " + value + "/>\n");
      return true;
    }

    /** Ends the nested element of the innermost open state, if it has one. */
    method CloseNested(s: TraceState) returns (status: Files.Status)
      requires Valid() && log.isEnabled && 0 <= functionDepth < |open| && states[functionDepth] == s
      requires open[functionDepth].nested ==> Fits(NestedClose(functionDepth))
      modifies this`messages, this`failed, this`open, log, log.buffer, log.file
      ensures Valid() && log.isEnabled == status.Ok? && failed == (old(failed) || status.Err?)
      ensures status.Ok? ==>
        && open == old(open)
        && messages == old(messages) + if open[functionDepth].nested then [NestedClose(functionDepth)] else []
    {
      status := Files.Ok;
      if s.hasNested {
        status := Emit(NestedClose(functionDepth), Indentation(functionDepth) + "</Nested>\n");
      }
    }

    /** Writes the tag of the innermost open state. */
    method WriteTag(s: TraceState) returns (status: Files.Status)
      requires Valid() && log.isEnabled && 0 <= functionDepth < |open| && states[functionDepth] == s
      requires var f := open[functionDepth];
        Fits(Tag(functionDepth, Info(f.name, f.attributes, f.elements, f.start, s.endTime)))
      modifies this`messages, this`failed, this`open, log, log.buffer, log.file
      ensures Valid() && log.isEnabled == status.Ok? && failed == (old(failed) || status.Err?)
      ensures status.Ok? ==>
        var f := open[functionDepth];
        && open == old(open)
        && messages == old(messages)
             + [Tag(functionDepth, Info(f.name, f.attributes, f.elements, f.start, old(s.endTime)))]
    {
      ghost var f := open[functionDepth];
      var tag := s.CreateTag(functionDepth, Indentation(functionDepth), initSec);
      status := Emit(Tag(functionDepth, Info(f.name, f.attributes, f.elements, f.start, s.endTime)), tag);
    }

    method StampEnd(s: TraceState, now: Time)
      requires Valid() && log.isEnabled && 0 <= functionDepth < |open| && states[functionDepth] == s
      modifies s`endTime
      ensures Valid() && s.endTime == now
    {
      s.End(now);
      assert Holds(states, memory, open) && LogHolds();
    }

    /** The end of a state that is recorded. */
    method RecordEnd(now: Time) returns (status: Files.Status)
      requires Valid() && log.isEnabled && 0 <= functionDepth < |open|
      requires open[functionDepth].nested ==> Fits(NestedClose(functionDepth))
      requires var f := open[functionDepth];
        Fits(Tag(functionDepth, Info(f.name, f.attributes, f.elements, f.start, now)))
      modifies this, memory, log, log.buffer, log.file
      ensures Valid() && states == old(states) && memory == old(memory)
      ensures functionDepth == old(functionDepth) && maxNestingDepth == old(maxNestingDepth)
      ensures failed == (old(failed) || status.Err?) && log.isEnabled == status.Ok?
      ensures status.Ok? ==>
        && open == old(open)
        && messages == old(messages) + EndMessages(open[functionDepth], functionDepth, now)
    {
      hide Valid, Holds, ValidStates, LogHolds, Text, EndMessages;
      var s := StateAt(functionDepth);
      ghost var frame := open[functionDepth];
      StampEnd(s, now);
      status := CloseNested(s);
      if status.Ok? {
        ghost var closed := messages;
        status := WriteTag(s);
        AllEndMessages(old(messages), frame, functionDepth, now);
      }
    }

    static lemma {:induction false} AllEndMessages(ms: seq<Message>, f: Frame, d: nat, now: Time)
      ensures ms + (if f.nested then [NestedClose(d)] else [])
                 + [Tag(d, Info(f.name, f.attributes, f.elements, f.start, now))]
           == ms + EndMessages(f, d, now)
    {
    }

    method PopState()
      requires Valid() && (log.isEnabled ==> functionDepth < maxNestingDepth) && functionDepth >= 0
      modifies this`open, this`functionDepth
      ensures Valid() && functionDepth == old(functionDepth) - 1
      ensures open == if log.isEnabled then old(open)[..old(functionDepth)] else []
    {
      if log.isEnabled {
        open := open[..functionDepth];
      }
      functionDepth := functionDepth - 1;
      assert LogHolds() && Holds(states, memory, open);
    }

    /** The end of a state; ending a state outside every state is an error of the caller. */
    method LogStateEnd(now: Time) returns (status: Files.Status)
      requires Valid() && functionDepth >= 0
      requires log.isEnabled && functionDepth < maxNestingDepth ==>
        var f := open[functionDepth];
        && (f.nested ==> Fits(NestedClose(functionDepth)))
        && Fits(Tag(functionDepth, Info(f.name, f.attributes, f.elements, f.start, now)))
      modifies this, memory, log, log.buffer, log.file
      ensures Valid() && states == old(states) && memory == old(memory)
      ensures functionDepth == old(functionDepth) - 1
      ensures status.Ok? ==> Model() == EndState(old(Model()), now)
      ensures status.Err? ==> !log.isEnabled
      ensures failed == (old(failed) || status.Err?)
    {
      hide Holds, ValidStates, LogHolds, Text, EndMessages;
      if functionDepth >= maxNestingDepth || !log.isEnabled {
        functionDepth := functionDepth - 1;
        return Files.Ok;
      }
      status := RecordEnd(now);
      PopState();
    }

    const END_TAG := "</Program>\n\n"

    /** Closing the trace: when no write has failed, the file is the program's start tag, the text
        of all messages in order, and the end tag. */
    method Finalize() returns (status: Files.Status)
      requires Valid() && |END_TAG| <= log.buffer.Length
      modifies log, log.buffer, log.file
      ensures status.Ok? && !failed ==>
        log.file.content == header + AllText(messages, initSec) + END_TAG && log.bufferPos == 0
    {
      log.isEnabled := true;
      ghost var before := log.State();
      status := log.WriteLog(END_TAG);
      Files.PutKeepsText(before, log.buffer.Length, log.alwaysFlush, END_TAG);
      if status.Err? {
        return;
      }
      ghost var written := log.State();
      status := log.FlushLog();
      Files.FlushKeepsText(written);
    }
  }
}
