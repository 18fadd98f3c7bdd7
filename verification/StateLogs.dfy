/** The log of nested states: what each call does to it, and what a whole run leaves in it. */
module StateLogs {
  import opened Decimals

  // ---- Messages ----

  datatype Time = Time(sec: int, usec: nat)

  /** Everything a state's own tag shows. */
  datatype Info = Info(name: string, attributes: string, elements: string, start: Time, end: Time)

  datatype Message =
    | NestedOpen(depth: nat)
    | NestedClose(depth: nat)
    | Tag(depth: nat, info: Info)

  function Tabs(n: nat): string { seq(n, _ => '\t') }

  /** Seconds relative to the creation of the trace, and six digits of microseconds. */
  function Stamp(t: Time, offset: int): string {
    Signed(t.sec - offset) + "." + Padded(t.usec, 6)
  }

  /** The characters written for a message; the end tag appears only around elements. */
  function Text(m: Message, offset: int): string {
    match m
    case NestedOpen(d) => Tabs(d) + "<Nested>\n"
    case NestedClose(d) => Tabs(d) + "</Nested>\n"
    case Tag(d, i) =>
      Tabs(d) + "<" + i.name + " " + i.attributes
      + " time='" + Stamp(i.start, offset) + "' end='" + Stamp(i.end, offset) + "'"
      + if i.elements == "" then "/>\n" else ">\n" + i.elements + "</" + i.name + ">\n"
  }

  function AllText(ms: seq<Message>, offset: int): string {
    if ms == [] then ""
    else AllText(ms[..|ms| - 1], offset) + Text(ms[|ms| - 1], offset)
  }

  /** The first line of a file: when the trace was created, and on what processor. */
  function ProgramTag(sec: nat, mhz: nat, model: string): string {
    "<Program timeAdjustment='" + Natural(sec) + "' processorSpeedinMHZ='" + Natural(mhz)
    + "' processorModelName='" + model + "'>\n"
  }

  // ---- Single calls ----

  /** A state that has been started and not yet ended. */
  datatype Frame = Frame(name: string, attributes: string, elements: string, start: Time, nested: bool)

  /** The trace: depth -1 is outside every state. `open` holds the recorded states, outermost first. */
  datatype Trace = Trace(depth: int, max: int, enabled: bool, open: seq<Frame>, messages: seq<Message>)
  {
    ghost predicate Valid() {
      && -1 <= depth
      && (enabled ==> |open| == if depth + 1 < max then depth + 1 else if max < 0 then 0 else max)
    }
  }

  datatype Event =
    | Start(name: string, now: Time)
    | Attribute(text: string)
    | Element(name: string, value: string)
    | End(now: Time)

  /** A state without a name is refused. */
  function StartState(s: Trace, name: string, now: Time): Trace
    requires s.Valid()
  {
    var d := s.depth + 1;
    if name == "" then s
    else if d >= s.max || !s.enabled then s.(depth := d)
    else
      var frame := Frame(name, "", "", now, false);
      if d > 0 && !s.open[d - 1].nested then
        s.(depth := d,
           open := s.open[d - 1 := s.open[d - 1].(nested := true)] + [frame],
           messages := s.messages + [NestedOpen(d - 1)])
      else
        s.(depth := d, open := s.open + [frame])
  }

  function LogAttribute(s: Trace, text: string): Trace
    requires s.Valid()
  {
    var d := s.depth;
    if d < 0 || !s.enabled || d >= s.max then s
    else s.(open := s.open[d := s.open[d].(attributes := s.open[d].attributes + text + " ")])
  }

  /** An element without a name is refused. */
  function ElementText(d: nat, name: string, value: string): string {
    if name == "" then "" else Tabs(d + 1) + "<" + name + " " + value + "/>\n"
  }

  function LogElement(s: Trace, name: string, value: string): Trace
    requires s.Valid()
  {
    var d := s.depth;
    if name == "" || d < 0 || !s.enabled || d >= s.max then s
    else s.(open := s.open[d := s.open[d].(elements := s.open[d].elements + ElementText(d, name, value))])
  }

  function EndMessages(f: Frame, d: nat, now: Time): seq<Message> {
    (if f.nested then [NestedClose(d)] else [])
    + [Tag(d, Info(f.name, f.attributes, f.elements, f.start, now))]
  }

  /** Ending a state outside every state is a failed assertion in the program; here nothing happens. */
  function EndState(s: Trace, now: Time): Trace
    requires s.Valid()
  {
    var d := s.depth;
    if d < 0 then s
    else if d >= s.max || !s.enabled then s.(depth := d - 1)
    else s.(depth := d - 1, open := s.open[..d], messages := s.messages + EndMessages(s.open[d], d, now))
  }

  function Step(s: Trace, e: Event): (t: Trace)
    requires s.Valid()
    ensures t.Valid() && t.max == s.max && t.enabled == s.enabled
  {
    match e
    case Start(name, now) => StartState(s, name, now)
    case Attribute(text) => LogAttribute(s, text)
    case Element(name, value) => LogElement(s, name, value)
    case End(now) => EndState(s, now)
  }

  function Run(s: Trace, es: seq<Event>): (t: Trace)
    requires s.Valid()
    ensures t.Valid() && t.max == s.max && t.enabled == s.enabled
    decreases |es|
  {
    if es == [] then s else Run(Step(s, es[0]), es[1..])
  }

  lemma {:induction false} RunAppend(s: Trace, es: seq<Event>, fs: seq<Event>)
    requires s.Valid()
    ensures Run(s, es + fs) == Run(Run(s, es), fs)
    decreases |es|
  {
    if es == [] {
      assert es + fs == fs;
    } else {
      assert (es + fs)[1..] == es[1..] + fs;
      RunAppend(Step(s, es[0]), es[1..], fs);
    }
  }

  // ---- The program that is traced ----

  /** What a call does, in order, until it returns. */
  datatype Body =
    | Return
    | Note(text: string, rest: Body)
    | Item(name: string, value: string, rest: Body)
    | Call(name: string, start: Time, body: Body, end: Time, rest: Body)

  function Events(b: Body): seq<Event> {
    match b
    case Return => []
    case Note(text, rest) => [Attribute(text)] + Events(rest)
    case Item(name, value, rest) => [Element(name, value)] + Events(rest)
    case Call(name, start, body, end, rest) => [Start(name, start)] + Events(body) + [End(end)] + Events(rest)
  }

  /** Every state that is started has a name. */
  predicate Named(b: Body) {
    match b
    case Return => true
    case Note(_, rest) => Named(rest)
    case Item(_, _, rest) => Named(rest)
    case Call(name, _, body, _, rest) => name != "" && Named(body) && Named(rest)
  }

  /** Every start has a name and its end: `d` more ends than starts are still to come. */
  predicate Balanced(es: seq<Event>, d: nat)
    decreases |es|
  {
    if es == [] then d == 0
    else match es[0]
      case Start(name, _) => name != "" && Balanced(es[1..], d + 1)
      case End(_) => d > 0 && Balanced(es[1..], d - 1)
      case _ => Balanced(es[1..], d)
  }

  /** The calls up to the first unmatched end, and what follows them. */
  function Parse(es: seq<Event>): (r: (Body, seq<Event>))
    ensures |r.1| <= |es|
    decreases |es|
  {
    if es == [] then (Return, [])
    else match es[0]
      case Start(name, start) =>
        var (body, after) := Parse(es[1..]);
        if after == [] then (Return, es)
        else if after[0].End? then
          var (rest, last) := Parse(after[1..]);
          (Call(name, start, body, after[0].now, rest), last)
        else (Return, es)
      case End(_) => (Return, es)
      case Attribute(text) => var (rest, last) := Parse(es[1..]); (Note(text, rest), last)
      case Element(name, value) => var (rest, last) := Parse(es[1..]); (Item(name, value, rest), last)
  }

  lemma {:induction false} ParseBalanced(es: seq<Event>, d: nat)
    requires Balanced(es, d)
    ensures var (b, last) := Parse(es);
      && es == Events(b) + last && Named(b)
      && (d == 0 ==> last == [])
      && (d > 0 ==> last != [] && last[0].End? && Balanced(last[1..], d - 1))
    decreases |es|
  {
    if es != [] {
      var tail := es[1..];
      assert es == [es[0]] + tail;
      match es[0]
      case Start(_, _) =>
        ParseBalanced(tail, d + 1);
        var after := Parse(tail).1;
        ParseBalanced(after[1..], d);
        ParsedCall(es);
        assert Parse(es).1 == Parse(after[1..]).1;
      case End(_) =>
        assert es == [] + es;
      case _ =>
        ParseBalanced(tail, d);
        ParsedNote(es);
    }
  }

  lemma {:induction false} ParsedNote(es: seq<Event>)
    requires es != [] && (es[0].Attribute? || es[0].Element?)
    requires es[1..] == Events(Parse(es[1..]).0) + Parse(es[1..]).1
    ensures es == Events(Parse(es).0) + Parse(es).1
  {
    var (rest, last) := Parse(es[1..]);
    assert es == [es[0]] + es[1..];
    Regroup([es[0]], [], [], Events(rest), last);
    assert Events(Parse(es).0) == [es[0]] + Events(rest);
    assert [es[0]] + [] + [] == [es[0]];
    assert [] + ([] + (Events(rest) + last)) == Events(rest) + last;
  }

  lemma {:induction false} ParsedCall(es: seq<Event>)
    requires es != [] && es[0].Start?
    requires var (body, after) := Parse(es[1..]);
      && es[1..] == Events(body) + after && after != [] && after[0].End?
      && after[1..] == Events(Parse(after[1..]).0) + Parse(after[1..]).1
    ensures es == Events(Parse(es).0) + Parse(es).1
  {
    var (body, after) := Parse(es[1..]);
    var (rest, last) := Parse(after[1..]);
    var x, y, z := [es[0]], Events(body), [after[0]];
    assert z == [End(after[0].now)] && x == [Start(es[0].name, es[0].now)];
    assert after == z + (Events(rest) + last);
    var later := Events(rest);
    assert es[1..] == y + (z + (later + last));
    Regroup(x, y, z, later, last);
    assert Events(Parse(es).0) == x + y + z + later;
    assert es == x + es[1..];
  }

  lemma {:induction false} Regroup(x: seq<Event>, y: seq<Event>, z: seq<Event>, u: seq<Event>, v: seq<Event>)
    ensures x + (y + (z + (u + v))) == x + y + z + u + v
  {
    var zu := z + u;
    assert z + (u + v) == zu + v;
    assert x + (y + (zu + v)) == (x + y) + (zu + v) == x + y + z + u + v;
  }

  /** Every balanced run is the run of some program. */
  lemma {:induction false} BalancedRunIsProgram(es: seq<Event>)
    requires Balanced(es, 0)
    ensures es == Events(Parse(es).0) && Named(Parse(es).0)
  {
    ParseBalanced(es, 0);
    assert Events(Parse(es).0) + [] == Events(Parse(es).0);
  }

  // ---- The forest of calls and its rendering ----

  /** Completed states: a tree, the forest below it, the trees after it. */
  datatype Forest = Empty | Tree(info: Info, children: Forest, next: Forest)

  function Attributes(b: Body): string {
    match b
    case Return => ""
    case Note(text, rest) => text + " " + Attributes(rest)
    case Item(_, _, rest) => Attributes(rest)
    case Call(_, _, _, _, rest) => Attributes(rest)
  }

  function Elements(b: Body, d: nat): string {
    match b
    case Return => ""
    case Note(_, rest) => Elements(rest, d)
    case Item(name, value, rest) => ElementText(d, name, value) + Elements(rest, d)
    case Call(_, _, _, _, rest) => Elements(rest, d)
  }

  /** The calls made by a body whose calls have depth `d`. */
  function Calls(b: Body, d: nat): Forest {
    match b
    case Return => Empty
    case Note(_, rest) => Calls(rest, d)
    case Item(_, _, rest) => Calls(rest, d)
    case Call(name, start, body, end, rest) =>
      Tree(Info(name, Attributes(body), Elements(body, d), start, end), Calls(body, d + 1), Calls(rest, d))
  }

  /** The uppermost `levels` levels of a forest. */
  function Prune(f: Forest, levels: int): Forest {
    if levels <= 0 then Empty
    else match f
      case Empty => Empty
      case Tree(i, c, n) => Tree(i, Prune(c, levels - 1), Prune(n, levels))
  }

  /** Children first, inside a nested element when there are any, then the state's own tag. */
  function Render(f: Forest, d: nat): seq<Message> {
    match f
    case Empty => []
    case Tree(i, c, n) =>
      (if c.Empty? then [] else [NestedOpen(d)] + Render(c, d + 1) + [NestedClose(d)])
      + [Tag(d, i)] + Render(n, d)
  }

  // ---- Every balanced run writes the rendering of its pruned forest ----

  /** The opening of the nested element that a first recorded child causes. */
  function Opening(s: Trace, f: Forest): seq<Message>
    requires s.Valid() && s.enabled
  {
    if f.Tree? && 0 <= s.depth < s.max && !s.open[s.depth].nested then [NestedOpen(s.depth)] else []
  }

  /** The innermost open state after the rest of its body has run and recorded the forest `f`. */
  function Absorb(s: Trace, b: Body, f: Forest): seq<Frame>
    requires s.Valid() && s.enabled
  {
    if 0 <= s.depth < s.max then
      var frame := s.open[s.depth];
      s.open[s.depth := frame.(attributes := frame.attributes + Attributes(b),
                               elements := frame.elements + Elements(b, s.depth),
                               nested := frame.nested || f.Tree?)]
    else s.open
  }

  ghost function Recorded(s: Trace, b: Body): Forest
    requires s.Valid()
  {
    Prune(Calls(b, s.depth + 1), s.max - (s.depth + 1))
  }

  /** What a body does to the trace it finds. */
  ghost function AfterBody(s: Trace, b: Body): Trace
    requires s.Valid() && s.enabled
  {
    var f := Recorded(s, b);
    s.(open := Absorb(s, b, f), messages := s.messages + Opening(s, f) + Render(f, s.depth + 1))
  }

  lemma {:induction false} NoteFirst(s: Trace, text: string, rest: Body)
    requires s.Valid() && s.enabled
    ensures AfterBody(LogAttribute(s, text), rest) == AfterBody(s, Note(text, rest))
  {
    if 0 <= s.depth < s.max {
      var a := s.open[s.depth].attributes;
      assert a + text + " " + Attributes(rest) == a + (text + " " + Attributes(rest));
    }
  }

  lemma {:induction false} SameCalls(s: Trace, name: string, value: string, rest: Body)
    requires s.Valid()
    ensures Recorded(s, Item(name, value, rest)) == Recorded(s, rest)
  {
  }

  lemma {:induction false} ItemFirst(s: Trace, name: string, value: string, rest: Body)
    requires s.Valid() && s.enabled
    ensures AfterBody(LogElement(s, name, value), rest) == AfterBody(s, Item(name, value, rest))
  {
    hide Calls, Prune, Render;
    assert Recorded(s, Item(name, value, rest)) == Recorded(s, rest) by { SameCalls(s, name, value, rest); }
    if 0 <= s.depth < s.max {
      var a, e := s.open[s.depth].elements, ElementText(s.depth, name, value);
      assert name == "" ==> a + e == a;
      assert a + e + Elements(rest, s.depth) == a + (e + Elements(rest, s.depth));
    }
  }

  /** The call alone, without what its caller does afterwards. */
  function Alone(b: Body): Body
    requires b.Call?
  {
    Call(b.name, b.start, b.body, b.end, Return)
  }

  function CallInfo(b: Body, d: nat): Info
    requires b.Call?
  {
    Info(b.name, Attributes(b.body), Elements(b.body, d), b.start, b.end)
  }

  lemma {:induction false} RecordedCall(s: Trace, b: Body)
    requires s.Valid() && b.Call?
    ensures var d := s.depth + 1;
      Recorded(s, b) ==
        if d < s.max then
          Tree(CallInfo(b, d), Prune(Calls(b.body, d + 1), s.max - (d + 1)), Prune(Calls(b.rest, d), s.max - d))
        else Empty
  {
    var d := s.depth + 1;
    assert Calls(b, d) == Tree(CallInfo(b, d), Calls(b.body, d + 1), Calls(b.rest, d));
  }

  /** A finished call leaves its caller's frame as it was, but for the nested flag. */
  lemma {:induction false} AbsorbCall(s: Trace, b: Body, f: Forest)
    requires s.Valid() && s.enabled && b.Call?
    ensures Absorb(s, Alone(b), f) ==
      if f.Tree? && 0 <= s.depth < s.max then s.open[s.depth := s.open[s.depth].(nested := true)] else s.open
  {
    if 0 <= s.depth < s.max {
      var frame, call := s.open[s.depth], Alone(b);
      assert Attributes(call) == Attributes(Return) && Elements(call, s.depth) == Elements(Return, s.depth);
      assert frame.attributes + "" == frame.attributes && frame.elements + "" == frame.elements;
    }
  }

  /** Starting a call, running its body and ending it records exactly one tree. */
  lemma {:induction false} CallFirst(s: Trace, b: Body)
    requires s.Valid() && s.enabled && b.Call? && b.name != ""
    ensures EndState(AfterBody(StartState(s, b.name, b.start), b.body), b.end) == AfterBody(s, Alone(b))
  {
    if s.depth + 1 < s.max {
      RecordedCallFirst(s, b);
    } else {
      RecordedCall(s, Alone(b));
      AbsorbCall(s, b, Empty);
      assert s.messages + [] + [] == s.messages;
    }
  }

  lemma {:induction false} RecordedCallFirst(s: Trace, b: Body)
    requires s.Valid() && s.enabled && b.Call? && b.name != "" && s.depth + 1 < s.max
    ensures EndState(AfterBody(StartState(s, b.name, b.start), b.body), b.end) == AfterBody(s, Alone(b))
  {
    var d := s.depth + 1;
    var s1 := StartState(s, b.name, b.start);
    var f := Recorded(s1, b.body);
    var g := Recorded(s, Alone(b));
    var s2 := AfterBody(s1, b.body);
    RecordedCall(s, Alone(b));
    AbsorbCall(s, b, g);
    hide Calls, Prune, Attributes, Elements, Render;
    assert g == Tree(CallInfo(b, d), f, Empty);
    assert s2.open[d] == Frame(b.name, Attributes(b.body), Elements(b.body, d), b.start, f.Tree?) by {
      assert "" + Attributes(b.body) == Attributes(b.body) && "" + Elements(b.body, d) == Elements(b.body, d);
    }
    assert s1.messages == s.messages + Opening(s, g);
    assert Opening(s1, f) == if f.Tree? then [NestedOpen(d)] else [];
    RenderOne(s1.messages, CallInfo(b, d), f, d);
    assert s2.messages == s1.messages + (if f.Tree? then [NestedOpen(d)] else []) + Render(f, d + 1);
  }

  /** A tree's messages in the order in which they are written. */
  lemma {:induction false} RenderOne(ms: seq<Message>, info: Info, f: Forest, d: nat)
    ensures ms + (if f.Tree? then [NestedOpen(d)] else []) + Render(f, d + 1)
        + ((if f.Tree? then [NestedClose(d)] else []) + [Tag(d, info)])
      == ms + Render(Tree(info, f, Empty), d)
  {
    var x, y, z, t := [NestedOpen(d)], Render(f, d + 1), [NestedClose(d)], [Tag(d, info)];
    assert Render(Empty, d) == [];
    if f.Tree? {
      assert Render(Tree(info, f, Empty), d) == x + y + z + t + [] == x + y + (z + t);
      assert ms + x + y + (z + t) == ms + (x + y + (z + t));
    } else {
      assert Render(Tree(info, f, Empty), d) == [] + t + [] == t && y == [];
      assert ms + [] + [] + ([] + t) == ms + t;
    }
  }

  /** The rest of the caller's body adds its trees behind the call's own. */
  lemma {:induction false} CallThenRest(s: Trace, b: Body)
    requires s.Valid() && s.enabled && b.Call?
    ensures AfterBody(AfterBody(s, Alone(b)), b.rest) == AfterBody(s, b)
  {
    if s.depth + 1 < s.max {
      RecordedCallThenRest(s, b);
    } else {
      RecordedCall(s, Alone(b));
      RecordedCall(s, b);
      AbsorbCall(s, b, Empty);
      assert s.messages + [] + [] + [] + [] == s.messages + [] + [];
    }
  }

  lemma {:induction false} RecordedCallThenRest(s: Trace, b: Body)
    requires s.Valid() && s.enabled && b.Call? && s.depth + 1 < s.max
    ensures AfterBody(AfterBody(s, Alone(b)), b.rest) == AfterBody(s, b)
  {
    var s3 := AfterBody(s, Alone(b));
    var d := s.depth + 1;
    var f, g, h := Recorded(s, Alone(b)), Recorded(s3, b.rest), Recorded(s, b);
    RecordedCall(s, Alone(b));
    RecordedCall(s, b);
    AbsorbCall(s, b, f);
    hide Render, Calls, Prune, Elements;
    RenderFirst(f, h, d);
    if s.depth >= 0 { ElementsOfCall(b, s.depth); }
    assert Opening(s3, g) == [] && Opening(s, h) == Opening(s, f);
    Joined(s.messages + Opening(s, f), Render(f, d), Render(g, d));
    assert g == h.next && Absorb(s3, b.rest, g) == Absorb(s, b, h);
  }

  lemma {:induction false} Joined(x: seq<Message>, y: seq<Message>, z: seq<Message>)
    ensures x + y + [] + z == x + (y + z) && x + y + z == x + (y + z)
  {
  }

  lemma {:induction false} ElementsOfCall(b: Body, d: nat)
    requires b.Call?
    ensures Elements(b, d) == Elements(b.rest, d)
  {
  }

  lemma {:induction false} RenderFirst(f: Forest, h: Forest, d: nat)
    requires f.Tree? && h.Tree? && f == h.(next := Empty)
    ensures Render(h, d) == Render(f, d) + Render(h.next, d)
  {
    assert Render(Empty, d) == [];
    assert Render(f, d) + [] == Render(f, d);
  }

  /** Main theorem for one body: whatever is recorded so far, the body's calls add exactly
      the rendering of their forest, pruned at the depth limit, to the log. */
  lemma {:induction false} BodyIsRendered(s: Trace, b: Body)
    requires s.Valid() && s.enabled && Named(b)
    ensures Run(s, Events(b)) == AfterBody(s, b)
    decreases b
  {
    match b
    case Return =>
      if 0 <= s.depth < s.max {
        var frame := s.open[s.depth];
        assert frame.attributes + "" == frame.attributes && frame.elements + "" == frame.elements;
      }
      assert s.messages + [] + [] == s.messages;
    case Note(text, rest) =>
      assert Events(b)[1..] == Events(rest);
      BodyIsRendered(LogAttribute(s, text), rest);
      NoteFirst(s, text, rest);
    case Item(name, value, rest) =>
      assert Events(b)[1..] == Events(rest);
      BodyIsRendered(LogElement(s, name, value), rest);
      ItemFirst(s, name, value, rest);
    case Call(name, start, body, end, rest) =>
      hide AfterBody, Events, Run;
      RunCall(s, b);
      var s1 := StartState(s, name, start);
      BodyIsRendered(s1, body);
      CallFirst(s, b);
      BodyIsRendered(AfterBody(s, Alone(b)), rest);
      CallThenRest(s, b);
  }

  lemma {:induction false} RunCall(s: Trace, b: Body)
    requires s.Valid() && s.enabled && b.Call? && b.name != ""
    ensures var s2 := Run(StartState(s, b.name, b.start), Events(b.body));
      Run(s, Events(b)) == Run(EndState(s2, b.end), Events(b.rest))
  {
    var es := Events(b.body) + ([End(b.end)] + Events(b.rest));
    assert Events(b) == [Start(b.name, b.start)] + es;
    var s1 := StartState(s, b.name, b.start);
    assert Run(s, Events(b)) == Run(s1, es);
    RunAppend(s1, Events(b.body), [End(b.end)] + Events(b.rest));
    assert ([End(b.end)] + Events(b.rest))[1..] == Events(b.rest);
  }

  /** A fresh or idle trace: outside every state. */
  function Idle(max: int, enabled: bool, messages: seq<Message>): Trace {
    Trace(-1, max, enabled, [], messages)
  }

  /** Every balanced run on an idle, enabled trace writes the rendering of its pruned call forest. */
  lemma {:induction false} BalancedRunIsRendered(max: int, messages: seq<Message>, es: seq<Event>)
    requires Balanced(es, 0)
    ensures Run(Idle(max, true, messages), es)
         == Idle(max, true, messages + Render(Prune(Calls(Parse(es).0, 0), max), 0))
  {
    BalancedRunIsProgram(es);
    BodyIsRendered(Idle(max, true, messages), Parse(es).0);
    assert messages + [] == messages;
  }

  /** While logging is off a run only counts the depth. */
  lemma {:induction false} DisabledRunIsSilent(s: Trace, es: seq<Event>, d: nat)
    requires s.Valid() && !s.enabled && s.depth == d - 1 && Balanced(es, d)
    ensures Run(s, es) == s.(depth := -1)
    decreases |es|
  {
    if es != [] {
      match es[0]
      case Start(_, _) => DisabledRunIsSilent(Step(s, es[0]), es[1..], d + 1);
      case End(_) => DisabledRunIsSilent(Step(s, es[0]), es[1..], d - 1);
      case _ => DisabledRunIsSilent(Step(s, es[0]), es[1..], d);
    }
  }

  // ---- Whole sessions ----

  /** A balanced run under one setting; settings change only outside every state. */
  datatype Phase = Phase(enabled: bool, max: int, es: seq<Event>)

  function RunPhases(s: Trace, ps: seq<Phase>): Trace
    requires s.Valid() && s.depth == -1
    requires forall p | p in ps :: Balanced(p.es, 0)
    ensures RunPhases(s, ps).Valid() && RunPhases(s, ps).depth == -1
    decreases |ps|
  {
    if ps == [] then s
    else
      assert ps[0] in ps;
      var t := Run(s.(enabled := ps[0].enabled, max := ps[0].max, open := []), ps[0].es);
      PhaseIsRendered(s, ps[0]);
      RunPhases(t, ps[1..])
  }

  /** What a phase adds to the log. */
  function Output(p: Phase): seq<Message>
  {
    if p.enabled then Render(Prune(Calls(Parse(p.es).0, 0), p.max), 0) else []
  }

  lemma {:induction false} PhaseIsRendered(s: Trace, p: Phase)
    requires s.Valid() && s.depth == -1 && Balanced(p.es, 0)
    ensures Run(s.(enabled := p.enabled, max := p.max, open := []), p.es)
         == Idle(p.max, p.enabled, s.messages + Output(p))
  {
    if p.enabled {
      BalancedRunIsRendered(p.max, s.messages, p.es);
    } else {
      DisabledRunIsSilent(s.(enabled := false, max := p.max, open := []), p.es, 0);
      assert s.messages + [] == s.messages;
    }
  }

  function Outputs(ps: seq<Phase>): seq<Message> {
    if ps == [] then [] else Output(ps[0]) + Outputs(ps[1..])
  }

  /** The log of a whole session is the concatenation of what its enabled phases record. */
  lemma {:induction false} SessionIsRendered(s: Trace, ps: seq<Phase>)
    requires s.Valid() && s.depth == -1
    requires forall p | p in ps :: Balanced(p.es, 0)
    ensures RunPhases(s, ps).messages == s.messages + Outputs(ps)
    decreases |ps|
  {
    hide Run, Output, Balanced;
    if ps != [] {
      assert ps[0] in ps;
      PhaseIsRendered(s, ps[0]);
      var t := Idle(ps[0].max, ps[0].enabled, s.messages + Output(ps[0]));
      SessionIsRendered(t, ps[1..]);
      Joined(s.messages, Output(ps[0]), Outputs(ps[1..]));
    }
  }
}
