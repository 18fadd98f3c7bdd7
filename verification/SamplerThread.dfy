/** The sampling thread and its controller: a mutex, a condition, and two requests. Critical sections are
    steps of their own; sleeping on the condition gives the mutex back. */
module SamplerThread {

  /** Where the thread is. */
  datatype Pc =
    | Initial                      // about to take the first sample, which only sets the old values
    | Head                         // at the head of the loop, about to take the mutex
    | Asleep(notified: bool)       // on the condition
    | Decided                      // the mutex is released, the decision is to be carried out
    | Pausing                      // waiting for the next multiple of the interval
    | Sampling
    | Exiting                      // behind the loop
    | Finished

  /** What happens to the statistics group, in order. */
  datatype Event = GroupEnabled | GroupDisabled | Sampled(written: bool) | GroupFinalised

  datatype State = State(
    // shared with the controller
    started: bool, terminate: bool,
    // the thread's own
    pc: Pc, enableTrace: bool, disableTrace: bool, enabled: bool, valid: bool,
    // the statistics group
    groupEnabled: bool, log: seq<Event>,
    // the controller
    finalising: bool, joined: bool)

  const START := State(false, false, Initial, false, false, false, false, false, [], false, false)

  // ---- The thread ----

  /** The assertions in the program text: nothing is switched on or pending when the thread goes to sleep,
      and enabling and disabling are never due together. */
  predicate AssertionsHold(s: State) {
    && (s.pc.Head? && !s.started && !s.terminate && !s.enabled ==> !s.enableTrace && !s.disableTrace)
    && (s.pc.Asleep? && !s.started && !s.terminate ==> !s.enabled && !s.enableTrace && !s.disableTrace)
    && (s.pc.Decided? ==> !(s.enableTrace && s.disableTrace))
  }

  /** The rest of the critical section, once there is a reason not to sleep. */
  function Decide(s: State): State {
    var t := if s.started && !s.enabled then s.(enableTrace := true) else s;
    if t.terminate then
      if t.enabled then t.(disableTrace := true, pc := Decided) else t.(pc := Exiting)
    else t.(pc := Decided)
  }

  /** The waiting loop: going to sleep makes the old values stale. */
  function SleepOrDecide(s: State): State {
    if !(s.started || s.terminate) then s.(valid := false, pc := Asleep(false)) else Decide(s)
  }

  function CarryOut(s: State): State {
    var t :=
      if s.enableTrace then s.(groupEnabled := true, enableTrace := false, enabled := true, log := s.log + [GroupEnabled])
      else s;
    if t.disableTrace then
      t.(groupEnabled := false, disableTrace := false, enabled := false, log := t.log + [GroupDisabled], pc := Head)
    else t.(pc := Pausing)
  }

  /** A sample writes its values only when there are old ones to compare with. */
  function Sample(s: State): State { s.(log := s.log + [Sampled(s.valid)], valid := true, pc := Head) }

  /** What the thread does when it gets the processor; a sleeper that nobody has notified stays asleep. */
  function ThreadStep(s: State): State {
    match s.pc
    case Initial => s.(valid := true, pc := Head)
    case Head => if !s.started && s.enabled then s.(disableTrace := true, pc := Decided) else SleepOrDecide(s)
    case Asleep(notified) => if notified then SleepOrDecide(s) else s
    case Decided => CarryOut(s)
    case Pausing => s.(pc := Sampling)
    case Sampling => Sample(s)
    case Exiting => s.(groupEnabled := false, log := s.log + [GroupDisabled, GroupFinalised], pc := Finished)
    case Finished => s
  }

  // ---- The controller and the condition ----

  function Broadcast(s: State): State { if s.pc.Asleep? then s.(pc := Asleep(true)) else s }

  /** Starting or stopping; nothing happens when the state is the requested one. */
  function ChangeTracingState(s: State, newState: bool): State {
    if s.started == newState then s else Broadcast(s.(started := newState))
  }

  function RequestEnd(s: State): State { Broadcast(s.(terminate := true, finalising := true)) }

  datatype Action = Thread | WakeUp | StartTracing | StopTracing | FinaliseTrace | Join

  /** Sleepers may wake up by themselves. The trace object must not be used once it is being finalised. */
  predicate Enabled(s: State, a: Action) {
    match a
    case Thread => true
    case WakeUp => s.pc.Asleep?
    case StartTracing => !s.finalising
    case StopTracing => !s.finalising
    case FinaliseTrace => !s.finalising
    case Join => s.finalising && s.pc.Finished? && !s.joined
  }

  function Do(s: State, a: Action): State
    requires Enabled(s, a)
  {
    match a
    case Thread => ThreadStep(s)
    case WakeUp => s.(pc := Asleep(true))
    case StartTracing => ChangeTracingState(s, true)
    case StopTracing => ChangeTracingState(s, false)
    case FinaliseTrace => RequestEnd(s)
    case Join => s.(joined := true)
  }

  // ---- What every step keeps ----

  /** The group's state after the events. */
  function OnAfter(log: seq<Event>): bool {
    if log == [] then false
    else match log[|log| - 1]
      case GroupEnabled => true
      case Sampled(_) => OnAfter(log[..|log| - 1])
      case _ => false
  }

  /** Samples fall between enabling and disabling, and nothing follows the end. */
  predicate Proper(log: seq<Event>) {
    log != [] ==>
      var before, last := log[..|log| - 1], log[|log| - 1];
      && Proper(before)
      && GroupFinalised !in before
      && (last.Sampled? || last == GroupFinalised ==> OnAfter(before) == last.Sampled?)
  }

  predicate Inv(s: State) {
    // what is asleep and not notified has no reason to be awake
    && (s.pc == Asleep(false) ==> !s.started && !s.terminate)
    // what is decided
    && (s.pc.Asleep? || s.pc.Initial? ==> !s.enabled && !s.valid)
    && (s.pc.Decided? ==> (s.enableTrace ==> !s.enabled) && (s.disableTrace ==> s.enabled) && (s.enabled || s.enableTrace))
    && (s.enableTrace || s.disableTrace ==> s.pc.Decided? || ((s.pc.Exiting? || s.pc.Finished?) && s.enableTrace && !s.disableTrace))
    && (s.pc.Pausing? || s.pc.Sampling? ==> s.enabled)
    && (s.pc.Exiting? || s.pc.Finished? ==> !s.enabled && s.terminate)
    // the local flag agrees with the group
    && s.enabled == s.groupEnabled == OnAfter(s.log)
    // the group's life
    && Proper(s.log)
    && (GroupFinalised in s.log <==> s.pc.Finished?)
    && (s.terminate <==> s.finalising)
    && (s.joined ==> s.pc.Finished?)
  }

  lemma {:induction false} LogGrows(log: seq<Event>, e: Event)
    requires Proper(log) && GroupFinalised !in log
    requires e.Sampled? ==> OnAfter(log)
    requires e == GroupFinalised ==> !OnAfter(log)
    ensures Proper(log + [e])
    ensures OnAfter(log + [e]) == (e == GroupEnabled || (e.Sampled? && OnAfter(log)))
    ensures GroupFinalised in log + [e] <==> e == GroupFinalised
  {
    var more := log + [e];
    assert more[..|more| - 1] == log && more[|more| - 1] == e;
  }

  lemma {:induction false} CarryingOutKeeps(s: State)
    requires Inv(s) && s.pc.Decided?
    ensures Inv(CarryOut(s))
  {
    hide Proper, OnAfter;
    if s.enableTrace {
      LogGrows(s.log, GroupEnabled);
    }
    if s.disableTrace {
      LogGrows(s.log, GroupDisabled);
    }
  }

  lemma {:induction false} ExitKeeps(s: State)
    requires Inv(s) && s.pc.Exiting?
    ensures Inv(ThreadStep(s))
  {
    hide Proper, OnAfter;
    LogGrows(s.log, GroupDisabled);
    LogGrows(s.log + [GroupDisabled], GroupFinalised);
    assert s.log + [GroupDisabled] + [GroupFinalised] == s.log + [GroupDisabled, GroupFinalised];
  }

  lemma {:induction false} ThreadKeeps(s: State)
    requires Inv(s)
    ensures Inv(ThreadStep(s)) && AssertionsHold(s)
  {
    hide Proper, OnAfter, CarryOut;
    match s.pc {
      case Decided => CarryingOutKeeps(s);
      case Sampling => LogGrows(s.log, Sampled(s.valid));
      case Exiting => ExitKeeps(s);
      case _ =>
    }
  }

  lemma {:induction false} StepKeeps(s: State, a: Action)
    requires Inv(s) && Enabled(s, a)
    ensures Inv(Do(s, a)) && AssertionsHold(s)
  {
    ThreadKeeps(s);
  }

  // ---- Every run ----

  predicate IsRun(s: State, actions: seq<Action>)
    decreases |actions|
  {
    actions == [] || (Enabled(s, actions[0]) && IsRun(Do(s, actions[0]), actions[1..]))
  }

  function After(s: State, actions: seq<Action>): State
    requires IsRun(s, actions)
    decreases |actions|
  {
    if actions == [] then s else After(Do(s, actions[0]), actions[1..])
  }

  /** In every interleaving: nobody sleeps through a request, no assertion fails, samples are taken only
      while the group is enabled, and the group is finalised at most once, by the last thing in its log. */
  lemma {:induction false} EveryRunIsSafe(s: State, actions: seq<Action>)
    requires Inv(s) && IsRun(s, actions)
    ensures var t := After(s, actions); Inv(t) && AssertionsHold(t)
    decreases |actions|
  {
    hide Inv, Do, AssertionsHold;
    if actions == [] {
      ThreadKeeps(s);
    } else {
      StepKeeps(s, actions[0]);
      EveryRunIsSafe(Do(s, actions[0]), actions[1..]);
    }
  }

  /** Samples in a proper log: the group is enabled at each of them. */
  lemma {:induction false} SamplesWhileEnabled(log: seq<Event>, i: nat)
    requires Proper(log) && i < |log| && log[i].Sampled?
    ensures OnAfter(log[..i])
    decreases |log|
  {
    var n := |log| - 1;
    if i < n {
      assert log[..n][i] == log[i] && log[..n][..i] == log[..i];
      SamplesWhileEnabled(log[..n], i);
    }
  }

  lemma {:induction false} FinalisedOnlyLast(log: seq<Event>, i: nat)
    requires Proper(log) && i < |log| - 1
    ensures log[i] != GroupFinalised
  {
    assert log[..|log| - 1][i] in log[..|log| - 1];
  }

  /** The same from the beginning, in words about the run itself. */
  lemma {:induction false} ReachableStates(actions: seq<Action>)
    requires IsRun(START, actions)
    ensures var t := After(START, actions);
      && AssertionsHold(t)
      && (t.pc == Asleep(false) ==> !t.started && !t.terminate)
      && t.enabled == t.groupEnabled
      && (forall i | 0 <= i < |t.log| && t.log[i].Sampled? :: OnAfter(t.log[..i]))
      && (forall i | 0 <= i < |t.log| && t.log[i] == GroupFinalised :: i == |t.log| - 1)
      && (t.pc.Finished? <==> GroupFinalised in t.log)
      && (t.joined ==> t.terminate && t.pc.Finished?)
  {
    EveryRunIsSafe(START, actions);
    var t := After(START, actions);
    forall i | 0 <= i < |t.log| && t.log[i].Sampled? ensures OnAfter(t.log[..i]) {
      SamplesWhileEnabled(t.log, i);
    }
    forall i | 0 <= i < |t.log| && t.log[i] == GroupFinalised ensures i == |t.log| - 1 {
      if i < |t.log| - 1 {
        FinalisedOnlyLast(t.log, i);
      }
    }
  }

  // ---- Which samples are written ----

  /** Whether the thread has slept since its last sample, or since its first step if it has taken none, told
      from where it is before and after each step. Before its first step nothing can be compared with either. */
  function Slept(s: State, actions: seq<Action>, before: bool): bool
    requires IsRun(s, actions)
    decreases |actions|
  {
    if actions == [] then before
    else
      var t := Do(s, actions[0]);
      var sampled := actions[0] == Thread && (s.pc.Initial? || s.pc.Sampling?);
      Slept(t, actions[1..], t.pc.Asleep? || (before && !sampled))
  }

  lemma {:induction false} SleepMakesStale(s: State, a: Action)
    requires Inv(s) && Enabled(s, a)
    ensures var t := Do(s, a);
      !t.valid == (t.pc.Asleep? || (!s.valid && !(a == Thread && (s.pc.Initial? || s.pc.Sampling?))))
  {
    hide Proper, OnAfter;
  }

  lemma {:induction false} StaleAfterSleep(s: State, actions: seq<Action>)
    requires Inv(s) && IsRun(s, actions)
    ensures !After(s, actions).valid == Slept(s, actions, !s.valid)
    decreases |actions|
  {
    hide Inv, Do, Enabled;
    if actions != [] {
      StepKeeps(s, actions[0]);
      SleepMakesStale(s, actions[0]);
      StaleAfterSleep(Do(s, actions[0]), actions[1..]);
    }
  }

  /** The sample that is due is written exactly when the thread has not slept since the last one. */
  lemma {:induction false} SampleIsWritten(actions: seq<Action>)
    requires IsRun(START, actions) && After(START, actions).pc.Sampling?
    ensures var s := After(START, actions);
      ThreadStep(s).log == s.log + [Sampled(!Slept(START, actions, true))]
  {
    hide IsRun, After, Slept;
    StaleAfterSleep(START, actions);
  }

  /** Behind a sample that is followed by nothing yet the old values are valid, unless the thread has gone to
      sleep, which it does with the group disabled only. */
  ghost predicate Paired(log: seq<Event>) {
    forall i | 0 < i < |log| && log[i - 1].Sampled? && log[i].Sampled? :: log[i] == Sampled(true)
  }

  ghost predicate FreshInv(s: State) {
    && Paired(s.log)
    && (s.log != [] && s.log[|s.log| - 1].Sampled? ==> s.valid)
  }

  lemma {:induction false} OneMorePaired(log: seq<Event>, e: Event)
    requires Paired(log)
    requires log != [] && log[|log| - 1].Sampled? && e.Sampled? ==> e == Sampled(true)
    ensures Paired(log + [e])
  {
  }

  lemma {:induction false} OnBehindSample(log: seq<Event>)
    requires Proper(log) && log != [] && log[|log| - 1].Sampled?
    ensures OnAfter(log)
  {
  }

  lemma {:induction false} FreshKeeps(s: State, a: Action)
    requires Inv(s) && FreshInv(s) && Enabled(s, a)
    ensures FreshInv(Do(s, a))
  {
    if s.log != [] && s.log[|s.log| - 1].Sampled? {
      OnBehindSample(s.log);
    }
    hide Proper, OnAfter, Paired;
    match a {
      case Thread =>
        match s.pc {
          case Decided =>
            OneMorePaired(s.log, GroupEnabled);
            OneMorePaired(s.log, GroupDisabled);
            OneMorePaired(s.log + [GroupEnabled], GroupDisabled);
          case Sampling => OneMorePaired(s.log, Sampled(s.valid));
          case Exiting =>
            OneMorePaired(s.log, GroupDisabled);
            OneMorePaired(s.log + [GroupDisabled], GroupFinalised);
            assert s.log + [GroupDisabled] + [GroupFinalised] == s.log + [GroupDisabled, GroupFinalised];
          case _ =>
        }
      case _ =>
    }
  }

  lemma {:induction false} EveryRunIsFresh(s: State, actions: seq<Action>)
    requires Inv(s) && FreshInv(s) && IsRun(s, actions)
    ensures FreshInv(After(s, actions))
    decreases |actions|
  {
    hide Inv, FreshInv, Do, Enabled;
    if actions != [] {
      StepKeeps(s, actions[0]);
      FreshKeeps(s, actions[0]);
      EveryRunIsFresh(Do(s, actions[0]), actions[1..]);
    }
  }

  /** A sample directly behind a sample is written. */
  lemma {:induction false} SamplesInARow(actions: seq<Action>, i: nat)
    requires IsRun(START, actions)
    ensures var log := After(START, actions).log;
      0 < i < |log| && log[i - 1].Sampled? && log[i].Sampled? ==> log[i] == Sampled(true)
  {
    EveryRunIsFresh(START, actions);
  }

  function Samples(log: seq<Event>): nat {
    if log == [] then 0 else Samples(log[..|log| - 1]) + if log[|log| - 1].Sampled? then 1 else 0
  }

  function Enablings(log: seq<Event>): nat {
    if log == [] then 0 else Enablings(log[..|log| - 1]) + if log[|log| - 1] == GroupEnabled then 1 else 0
  }

  /** How many samples were written. */
  function Written(log: seq<Event>): nat {
    if log == [] then 0 else Written(log[..|log| - 1]) + if log[|log| - 1] == Sampled(true) then 1 else 0
  }

  /** Each time the group is enabled one sample at most goes unwritten. */
  lemma {:induction false} MostAreWritten(log: seq<Event>)
    requires Proper(log) && Paired(log)
    ensures Written(log) <= Samples(log) <= Written(log) + Enablings(log)
    ensures log != [] && log[|log| - 1] == GroupEnabled ==> Samples(log) < Written(log) + Enablings(log)
  {
    if log != [] {
      var n := |log| - 1;
      MostAreWritten(log[..n]);
      if log[n].Sampled? {
        assert OnAfter(log[..n]) && n > 0;
        assert log[..n][n - 1] == log[n - 1];
        assert log[n - 1] == GroupEnabled || log[n - 1].Sampled?;
      }
    }
  }

  // ---- Requests take effect ----

  /** The thread alone, as long as it is asked nothing new. */
  function ThreadRun(s: State, n: nat): State
    decreases n
  {
    if n == 0 then s else ThreadRun(ThreadStep(s), n - 1)
  }

  /** How many steps are left until the end, once it is requested. */
  function StepsToEnd(s: State): nat {
    match s.pc
    case Finished => 0
    case Exiting => 1
    case Initial => 3
    case Asleep(_) => 2
    case Head => if s.enabled then 4 else 2
    case Decided => if s.disableTrace then 3 else 7
    case Pausing => 6
    case Sampling => 5
  }

  lemma {:induction false} EndComesNearer(s: State)
    requires Inv(s) && s.terminate && !s.pc.Finished?
    ensures var t := ThreadStep(s); t.terminate && t.finalising == s.finalising && StepsToEnd(t) < StepsToEnd(s)
  {
  }

  /** Once termination is requested the thread ends by itself within its next seven steps, and the group
      is disabled and finalised. */
  lemma {:induction false} TerminationTakesEffect(s: State, n: nat)
    requires Inv(s) && s.terminate && StepsToEnd(s) <= n
    ensures var t := ThreadRun(s, n);
      && Inv(t) && t.pc.Finished? && !t.groupEnabled
      && t.log != [] && t.log[|t.log| - 1] == GroupFinalised && GroupFinalised !in t.log[..|t.log| - 1]
    decreases n
  {
    hide Inv, Proper;
    if s.pc.Finished? {
      FinishedStays(s, n);
      FinalisedOnce(s);
    } else {
      ThreadKeeps(s);
      EndComesNearer(s);
      TerminationTakesEffect(ThreadStep(s), n - 1);
    }
  }

  lemma {:induction false} FinishedStays(s: State, n: nat)
    requires s.pc.Finished?
    ensures ThreadRun(s, n) == s
  {
    if n > 0 { FinishedStays(s, n - 1); }
  }

  lemma {:induction false} FinalisedOnce(s: State)
    requires Inv(s) && s.pc.Finished?
    ensures !s.groupEnabled
    ensures s.log != [] && s.log[|s.log| - 1] == GroupFinalised && GroupFinalised !in s.log[..|s.log| - 1]
  {
  }

  lemma {:induction false} AtMostSeven(s: State)
    ensures StepsToEnd(s) <= 7
  {
  }

  /** The other actions cannot hold the end up: after the request only the thread, a spurious wake-up and
      the joining controller move, and none of them adds a step. */
  lemma {:induction false} NothingDelaysTheEnd(s: State, a: Action)
    requires Inv(s) && s.terminate && Enabled(s, a)
    ensures StepsToEnd(Do(s, a)) <= StepsToEnd(s)
    ensures a == Thread && !s.pc.Finished? ==> StepsToEnd(Do(s, a)) < StepsToEnd(s)
    ensures a in {Thread, WakeUp, Join}
  {
    if !s.pc.Finished? {
      EndComesNearer(s);
    }
  }

  lemma {:induction false} NoStepsLeft(s: State)
    ensures s.pc.Finished? <==> StepsToEnd(s) == 0
  {
  }

  lemma {:induction false} TerminateStays(s: State, a: Action)
    requires Inv(s) && s.terminate && Enabled(s, a)
    ensures Do(s, a).terminate
  {
    hide Inv;
    if a == Thread && !s.pc.Finished? {
      EndComesNearer(s);
    }
  }

  function ThreadSteps(actions: seq<Action>): nat
    decreases |actions|
  {
    if actions == [] then 0 else (if actions[0] == Thread then 1 else 0) + ThreadSteps(actions[1..])
  }

  /** Whatever else happens in between: once termination is requested every run in which the thread makes its
      seven steps ends with the thread finished, and the group disabled and finalised once. */
  lemma {:induction false} EveryRunEnds(s: State, actions: seq<Action>)
    requires Inv(s) && s.terminate && IsRun(s, actions) && StepsToEnd(s) <= ThreadSteps(actions)
    ensures var t := After(s, actions);
      && Inv(t) && t.pc.Finished? && !t.groupEnabled
      && t.log != [] && t.log[|t.log| - 1] == GroupFinalised && GroupFinalised !in t.log[..|t.log| - 1]
    decreases |actions|
  {
    hide Inv, Proper, Do, Enabled, StepsToEnd, AssertionsHold;
    if actions == [] {
      NoStepsLeft(s);
      FinalisedOnce(s);
    } else {
      var a := actions[0];
      NoStepsLeft(s);
      StepKeeps(s, a);
      TerminateStays(s, a);
      NothingDelaysTheEnd(s, a);
      EveryRunEnds(Do(s, a), actions[1..]);
    }
  }

  // ---- What is requested ----

  /** The last word on whether to trace. */
  function Wanted(actions: seq<Action>, before: bool): bool
    decreases |actions|
  {
    if actions == [] then before
    else
      Wanted(actions[1..], if actions[0] == StartTracing then true else if actions[0] == StopTracing then false else before)
  }

  predicate SameRequests(s: State, t: State) { t.started == s.started && t.terminate == s.terminate && t.joined == s.joined }

  lemma {:induction false} DecidingAsksNothing(s: State)
    requires s.pc.Head? || s.pc.Asleep?
    ensures SameRequests(s, ThreadStep(s))
  {
  }

  lemma {:induction false} CarryingOutAsksNothing(s: State)
    requires s.pc.Decided?
    ensures SameRequests(s, ThreadStep(s))
  {
  }

  lemma {:induction false} LoggingAsksNothing(s: State)
    requires s.pc.Sampling? || s.pc.Exiting?
    ensures SameRequests(s, ThreadStep(s))
  {
  }

  lemma {:induction false} MovingAsksNothing(s: State)
    requires s.pc.Initial? || s.pc.Pausing? || s.pc.Finished?
    ensures SameRequests(s, ThreadStep(s))
  {
  }

  lemma {:induction false} ThreadAsksNothing(s: State)
    ensures SameRequests(s, ThreadStep(s))
  {
    hide *;
    if s.pc.Head? || s.pc.Asleep? {
      DecidingAsksNothing(s);
    } else if s.pc.Decided? {
      CarryingOutAsksNothing(s);
    } else if s.pc.Sampling? || s.pc.Exiting? {
      LoggingAsksNothing(s);
    } else {
      MovingAsksNothing(s);
    }
  }

  lemma {:induction false} RequestStep(s: State, a: Action)
    requires Enabled(s, a)
    ensures Do(s, a).started == (if a == StartTracing then true else if a == StopTracing then false else s.started)
    ensures Do(s, a).terminate == (s.terminate || a == FinaliseTrace)
    ensures Do(s, a).joined == (s.joined || a == Join)
  {
    ThreadAsksNothing(s);
    hide ThreadStep;
  }

  /** In every interleaving requests stand until the controller takes them back: nothing that the thread does,
      and no wake-up, changes or loses one. */
  lemma {:induction false} RequestsStand(s: State, actions: seq<Action>)
    requires IsRun(s, actions)
    ensures var t := After(s, actions);
      && t.started == Wanted(actions, s.started)
      && t.terminate == (s.terminate || FinaliseTrace in actions) && t.joined == (s.joined || Join in actions)
    decreases |actions|
  {
    hide Do, Enabled;
    if actions != [] {
      RequestStep(s, actions[0]);
      RequestsStand(Do(s, actions[0]), actions[1..]);
      assert actions == [actions[0]] + actions[1..];
    }
  }

  lemma {:induction false} OneActionMore(s: State, a: Action, more: seq<Action>)
    requires Enabled(s, a) && IsRun(Do(s, a), more)
    ensures IsRun(s, [a] + more) && After(s, [a] + more) == After(Do(s, a), more)
  {
    assert ([a] + more)[1..] == more;
  }

  /** From wherever it stands every run can be brought to its end: nobody waits for ever. */
  lemma {:induction false} CanEnd(s: State) returns (more: seq<Action>)
    requires Inv(s)
    ensures IsRun(s, more) && After(s, more).joined && After(s, more).pc.Finished?
    decreases !s.finalising, StepsToEnd(s), !s.joined
  {
    hide Proper, OnAfter, IsRun, After;
    if s.joined {
      more := [];
      assert IsRun(s, more) && After(s, more) == s by { NoActions(s); }
    } else {
      var a := if !s.finalising then FinaliseTrace else if s.pc.Finished? then Join else Thread;
      StepKeeps(s, a);
      if a == Thread {
        EndComesNearer(s);
      }
      var rest := CanEnd(Do(s, a));
      more := [a] + rest;
      OneActionMore(s, a, rest);
    }
  }

  lemma {:induction false} NoActions(s: State)
    ensures IsRun(s, []) && After(s, []) == s
  {
  }

  lemma {:induction false} EveryRunCanEnd(actions: seq<Action>) returns (more: seq<Action>)
    requires IsRun(START, actions)
    ensures var s := After(START, actions); IsRun(s, more) && After(s, more).joined && After(s, more).pc.Finished?
  {
    EveryRunIsSafe(START, actions);
    more := CanEnd(After(START, actions));
  }

  /** How many steps are left until a pause between samples, once tracing is started. */
  function StepsToSample(s: State): nat {
    match s.pc
    case Pausing => 0
    case Decided => if s.disableTrace then 3 else 1
    case Head => 2
    case Asleep(_) => 2
    case Sampling => 3
    case Initial => 3
    case _ => 4
  }

  /** Starting takes effect: within three steps the group is enabled and the thread waits for its next sample. */
  lemma {:induction false} StartTakesEffect(s: State, n: nat)
    requires Inv(s) && s.started && !s.terminate && n == StepsToSample(s)
    ensures n <= 3
    ensures var t := ThreadRun(s, n); t.pc == Pausing && t.groupEnabled && t.enabled && t.started && !t.terminate
    decreases n
  {
    hide Proper, OnAfter;
    if n > 0 {
      ThreadKeeps(s);
      StartTakesEffect(ThreadStep(s), n - 1);
    }
  }

  function StepsToSleep(s: State): nat {
    match s.pc
    case Asleep(notified) => if notified then 1 else 0
    case Head => if s.enabled then 3 else 1
    case Decided => if s.disableTrace then 2 else 6
    case Pausing => 5
    case Sampling => 4
    case Initial => 2
    case _ => 7
  }

  /** Stopping takes effect: within six steps the group is disabled, the thread sleeps, and the old values
      are stale, so that no later value is a difference across the break. */
  lemma {:induction false} StopTakesEffect(s: State, n: nat)
    requires Inv(s) && !s.started && !s.terminate && n == StepsToSleep(s)
    ensures n <= 6
    ensures var t := ThreadRun(s, n); t.pc == Asleep(false) && !t.groupEnabled && !t.valid
    decreases n
  {
    hide Proper, OnAfter;
    if n > 0 {
      ThreadKeeps(s);
      StopTakesEffect(ThreadStep(s), n - 1);
    }
  }
}
