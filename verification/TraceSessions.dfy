/** A program's whole use of a trace: from the new trace object over its calls to the closed file. */
module TraceSessions {
  import opened Basics
  import opened StateLogs
  import opened TraceTexts
  import opened TraceWriters
  import Reader = LogReader
  import Files = LogFiles

  /** The messages of a run fit the log buffer. */
  ghost predicate AllFit(t: TraceWriter, ms: seq<Message>)
    reads t, t.log
  {
    forall m | m in ms :: t.Fits(m)
  }

  lemma {:induction false} MessagesGrow(s: Trace, es: seq<Event>)
    requires s.Valid()
    ensures s.messages <= Run(s, es).messages
    decreases |es|
  {
    hide Trace.Valid, EndMessages;
    if es != [] {
      StepGrows(s, es[0]);
      MessagesGrow(Step(s, es[0]), es[1..]);
    }
  }

  lemma {:induction false} StepGrows(s: Trace, e: Event)
    requires s.Valid()
    ensures s.messages <= Step(s, e).messages
  {
  }

  lemma {:induction false} StartIn(s: Trace, name: string, now: Time)
    requires s.Valid() && s.enabled && 0 <= s.depth < s.max - 1 && !s.open[s.depth].nested && name != ""
    ensures var ms := StartState(s, name, now).messages; s.messages < ms && NestedOpen(s.depth) in ms[|s.messages|..]
  {
    var ms := StartState(s, name, now).messages;
    assert ms[|s.messages|..][0] == NestedOpen(s.depth);
  }

  lemma {:induction false} EndIn(s: Trace, now: Time)
    requires s.Valid() && s.enabled && 0 <= s.depth < s.max
    ensures var f, ms := s.open[s.depth], EndState(s, now).messages;
      && s.messages < ms
      && (f.nested ==> NestedClose(s.depth) in ms[|s.messages|..])
      && Tag(s.depth, Info(f.name, f.attributes, f.elements, f.start, now)) in ms[|s.messages|..]
  {
    var f, ms := s.open[s.depth], EndState(s, now).messages;
    var more := EndMessages(f, s.depth, now);
    assert ms == s.messages + more && ms[|s.messages|..] == more;
    assert f.nested ==> more[0] == NestedClose(s.depth);
    assert more[|more| - 1] == Tag(s.depth, Info(f.name, f.attributes, f.elements, f.start, now));
  }

  /** The messages of one call fit. */
  ghost predicate StepFits(t: TraceWriter, e: Event)
    reads t, t.log
    requires t.Model().Valid()
  {
    StepGrows(t.Model(), e);
    AllFit(t, Step(t.Model(), e).messages[|t.messages|..])
  }

  /** One call. */
  method Perform(t: TraceWriter, e: Event)
    requires t.Valid() && (e.End? ==> t.functionDepth >= 0)
    requires t.log.isEnabled ==> StepFits(t, e)
    modifies t, t.states, t.memory, t.log, t.log.buffer, t.log.file
    ensures t.Valid() && (fresh(t.states) || t.states == old(t.states)) && fresh(t.memory - old(t.memory))
    ensures t.functionDepth == old(t.functionDepth) + (if e.Start? && e.name != "" then 1 else if e.End? then -1 else 0)
    ensures t.failed || t.Model() == Step(old(t.Model()), e)
    ensures old(t.failed) ==> t.failed
    ensures t.Model() == Step(old(t.Model()), e) || !t.log.isEnabled
  {
    hide Holds, ValidStates, TraceWriter.LogHolds, Text, EndMessages;
    ghost var s := t.Model();
    match e {
      case Start(name, now) =>
        if name != "" && t.log.isEnabled && 0 <= t.functionDepth < t.maxNestingDepth - 1 && !s.open[s.depth].nested {
          StartIn(s, name, now);
        }
        var status := t.LogStateStart(name, now);
      case Attribute(text) =>
        var ok := t.LogAttributes(text);
      case Element(name, value) =>
        var ok := t.LogElement(name, value);
      case End(now) =>
        if t.log.isEnabled && t.functionDepth < t.maxNestingDepth {
          EndIn(s, now);
        }
        var status := t.LogStateEnd(now);
    }
  }

  /** What a run adds to the messages. */
  function Added(s: Trace, es: seq<Event>): seq<Message>
    requires s.Valid()
  {
    MessagesGrow(s, es);
    Run(s, es).messages[|s.messages|..]
  }

  lemma {:induction false} AddedSplits(s: Trace, es: seq<Event>)
    requires s.Valid() && es != []
    ensures var u := Step(s, es[0]);
      && s.messages <= u.messages
      && Added(s, es) == u.messages[|s.messages|..] + Added(u, es[1..])
  {
    var u := Step(s, es[0]);
    StepGrows(s, es[0]);
    MessagesGrow(u, es[1..]);
    assert Run(s, es) == Run(u, es[1..]);
  }

  /** A program's calls, one after the other. */
  method PerformAll(t: TraceWriter, es: seq<Event>)
    requires t.Valid() && t.functionDepth >= -1 && Balanced(es, t.functionDepth + 1)
    requires t.log.isEnabled ==> AllFit(t, Added(t.Model(), es))
    modifies t, t.states, t.memory, t.log, t.log.buffer, t.log.file
    ensures t.Valid() && (fresh(t.states) || t.states == old(t.states)) && fresh(t.memory - old(t.memory))
    ensures t.functionDepth == -1
    ensures t.failed || t.Model() == Run(old(t.Model()), es)
    ensures old(t.failed) ==> t.failed
    decreases |es|
  {
    hide Holds, ValidStates, TraceWriter.LogHolds, Text, Step, Added;
    if es != [] {
      if t.log.isEnabled {
        AddedSplits(t.Model(), es);
      }
      Perform(t, es[0]);
      PerformAll(t, es[1..]);
    }
  }

  /** Phases of balanced runs, each under its own settings. */
  method PerformPhases(t: TraceWriter, ps: seq<Phase>)
    requires t.Valid() && t.functionDepth == -1
    requires forall p | p in ps :: Balanced(p.es, 0) && AllFit(t, Output(p))
    modifies t, t.states, t.memory, t.log, t.log.buffer, t.log.file
    ensures t.Valid() && (fresh(t.states) || t.states == old(t.states)) && fresh(t.memory - old(t.memory))
    ensures t.functionDepth == -1
    ensures t.failed || t.messages == old(t.messages) + Outputs(ps)
    ensures old(t.failed) ==> t.failed
    decreases |ps|
  {
    hide Holds, ValidStates, TraceWriter.LogHolds, Text, Run, Output, Balanced;
    if ps != [] {
      var p := ps[0];
      assert p in ps;
      ghost var s := t.Model();
      PhaseIsRendered(s, p);
      t.SetEnabled(p.enabled);
      var ok := t.SetNestedDepth(p.max);
      assert t.Model() == s.(enabled := p.enabled, max := p.max, open := []);
      assert (s.messages + Output(p))[|s.messages|..] == Output(p);
      PerformAll(t, p.es);
      PerformPhases(t, ps[1..]);
      assert s.messages + Output(p) + Outputs(ps[1..]) == s.messages + (Output(p) + Outputs(ps[1..]));
    }
  }

  /** The creation time in the first line is an unsigned number of 32 bits. */
  const TIME_LIMIT := 0x1_0000_0000

  /** From the first line to the last: a trace that is created, used for a session of balanced runs under
      changing settings, and closed. Unless a write has failed, the file is the start tag, the text of what each
      enabled run records down to its depth limit, each state behind its children, and the end tag; and a
      reader of its characters finds exactly what was recorded: every start and end above the limits, in order. */
  method RecordSession(maxDepth: int, now: Time, mhz: nat, model: string, bufferSize: nat, env: seq<Files.Outcome>, ps: seq<Phase>)
      returns (t: TraceWriter, status: Files.Status)
    requires |ProgramTag(now.sec % TIME_LIMIT, mhz, model)| <= bufferSize && |"</Program>\n\n"| <= bufferSize
    requires forall p | p in ps :: Balanced(p.es, 0) && forall m | m in Output(p) :: |Text(m, now.sec)| <= bufferSize
    ensures status.Ok? && !t.failed ==>
      && t.log.file.content ==
           ProgramTag(now.sec % TIME_LIMIT, mhz, model) + AllText(Outputs(ps), now.sec) + "</Program>\n\n"
      && (0 <= now.sec < TIME_LIMIT && '\n' !in model && (forall p | p in ps :: CleanEvents(p.es)) ==>
            ReadTrace(t.log.file.content) == Some(Logged(ps)))
    ensures Marks(Logged(ps)) == SessionMarks(ps)
  {
    hide Output, Outputs, AllText, Text, Balanced, ProgramTag, ReadTrace, Logged, Marks, SessionMarks, CleanEvents;
    SessionIsTheRuns(ps);
    t := new TraceWriter(maxDepth, now, ProgramTag(now.sec % TIME_LIMIT, mhz, model), bufferSize, env);
    PerformPhases(t, ps);
    assert [] + Outputs(ps) == Outputs(ps);
    status := t.Finalize();
    if 0 <= now.sec < TIME_LIMIT && '\n' !in model && forall p | p in ps :: CleanEvents(p.es) {
      SessionIsReadable(ps, now.sec, mhz, model);
    }
  }

  /** One balanced run on a trace that has been switched on. */
  method Record(maxDepth: int, now: Time, mhz: nat, model: string, bufferSize: nat, env: seq<Files.Outcome>, es: seq<Event>)
      returns (t: TraceWriter, status: Files.Status)
    requires Balanced(es, 0) && |"</Program>\n\n"| <= bufferSize
    requires |ProgramTag(now.sec % TIME_LIMIT, mhz, model)| <= bufferSize
    requires forall m | m in Render(Prune(Calls(Parse(es).0, 0), maxDepth), 0) :: |Text(m, now.sec)| <= bufferSize
    ensures status.Ok? && !t.failed ==>
      var f := Prune(Calls(Parse(es).0, 0), maxDepth);
      && t.log.file.content ==
           ProgramTag(now.sec % TIME_LIMIT, mhz, model) + AllText(Render(f, 0), now.sec) + "</Program>\n\n"
      && (0 <= now.sec < TIME_LIMIT && '\n' !in model && CleanEvents(es) ==> ReadTrace(t.log.file.content) == Some(f))
  {
    hide Render, Prune, Calls, Parse, AllText, Text, Balanced, ProgramTag, ReadTrace, CleanEvents;
    var p := Phase(true, maxDepth, es);
    assert Outputs([p]) == Output(p) + Outputs([]) == Output(p);
    t, status := RecordSession(maxDepth, now, mhz, model, bufferSize, env, [p]);
    OnePhase(p);
  }

  lemma {:induction false} OnePhase(p: Phase)
    requires p.enabled
    ensures Logged([p]) == Prune(Calls(Parse(p.es).0, 0), p.max)
  {
    hide Prune, Calls, Parse;
    var f := Prune(Calls(Parse(p.es).0, 0), p.max);
    assert Logged([]) == Empty;
    Reader.AppendLaws(f, Empty, Empty);
  }
}
