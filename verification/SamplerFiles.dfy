/** From the sampler to its file: the columns are registered in the group, the thread's events become the
    group's calls, and a reader of the file finds one entry for every sample that was written. */
module SamplerFiles {
  import opened Basics
  import opened SampleColumns
  import opened Sampling
  import opened StatsFormat
  import opened StatsGroups
  import opened StatsHeaders
  import Thread = SamplerThread

  // ---- Registration ----

  /** Registers columns one after the other; the sampler gives up at the first that is refused. */
  function RegisterAll(g: Group, cs: seq<Column>): (Group, bool) {
    if cs == [] then (g, true)
    else
      var n := |cs| - 1;
      var (h, ok) := RegisterAll(g, cs[..n]);
      if !ok then (h, false)
      else
        var (k, r) := RegisterColumn(h, cs[n]);
        (k, r == Done)
  }

  function KindsOf(cs: seq<Column>): seq<ValueType> { seq(|cs|, i requires 0 <= i < |cs| => cs[i].kind) }

  lemma {:induction false} RegisterExactly(g: Group, c: Column)
    requires Sound(g) && Building(g)
    ensures var (h, r) := RegisterColumn(g, c);
      && (r == Done <==> Named(c) && |g.types| < MAX_VALUES && |g.pending| + |INDENT| + |Tag(c)| < HEADER_BUFFER)
      && (r == Done ==> Sound(h) && Building(h) && h.types == g.types + [c.kind] && h.pending == g.pending + INDENT + Tag(c))
      && (r == Done ==> h.file == g.file && h.enabled == g.enabled)
  {
    hide Tag;
    RegisterKeeps(g, c.kind, Tag(c));
    if g.next < MAX_VALUES {
      var w := WithType(g, c.kind);
      AppendBoth(w, INDENT, Tag(c));
      AppendAllKeeps(w, [INDENT, Tag(c)]);
    }
  }

  predicate AllNamed(cs: seq<Column>) { forall i | 0 <= i < |cs| :: Named(cs[i]) }

  lemma {:induction false} OneMoreKind(cs: seq<Column>, n: nat)
    requires |cs| == n + 1
    ensures KindsOf(cs) == KindsOf(cs[..n]) + [cs[n].kind] && |KindsOf(cs[..n])| == n
    ensures AllNamed(cs) <==> AllNamed(cs[..n]) && Named(cs[n])
    ensures Lines(cs) == Lines(cs[..n]) + INDENT + Tag(cs[n])
  {
    hide Tag;
  }

  /** All columns are taken, in order, exactly when their names, units and groupings are not empty, they are at
      most 256, and their tags fit the header. */
  lemma {:induction false} RegistrationFits(g: Group, cs: seq<Column>)
    requires Sound(g) && Building(g) && g.types == []
    ensures var (h, ok) := RegisterAll(g, cs);
      && (ok <==> AllNamed(cs) && |cs| <= MAX_VALUES && |g.pending| + |Lines(cs)| < HEADER_BUFFER)
      && (ok ==> Sound(h) && Building(h) && h.types == KindsOf(cs) && h.pending == g.pending + Lines(cs))
      && (ok ==> h.file == g.file && h.enabled == g.enabled)
  {
    hide Sound, RegisterColumn, Tag, Lines, KindsOf, AllNamed, Named;
    if cs == [] {
      NoLines(g);
    } else {
      var n := |cs| - 1;
      RegistrationFits(g, cs[..n]);
      OneMoreKind(cs, n);
      var (h, ok) := RegisterAll(g, cs[..n]);
      if ok {
        RegisterExactly(h, cs[n]);
        assert g.pending + Lines(cs[..n]) + INDENT + Tag(cs[n]) == g.pending + Lines(cs);
      }
    }
  }

  lemma {:induction false} NoLines(g: Group)
    ensures Lines([]) == "" && KindsOf([]) == [] && AllNamed([]) && g.pending + "" == g.pending
  {
  }

  /** No column of a sampler lacks a name. */
  lemma {:induction false} ColumnsAreNamed(src: Sources, m: Machine, nm: Names)
    requires src.Valid()
    ensures AllNamed(Columns(src, m, nm)) && KindsOf(Columns(src, m, nm)) == Registered(src, m)
  {
    QuantitiesPresent(src, m);
    hide Quantities, Describe;
    var qs, cs := Quantities(src, m), Columns(src, m, nm);
    forall i | 0 <= i < |cs| ensures Named(cs[i]) && cs[i].kind == Kind(qs[i]) {
      IsNamed(qs[i], nm);
    }
  }

  lemma {:induction false} IsNamed(q: Quantity, nm: Names)
    requires Known(q)
    ensures Named(Describe(q, nm)) && Describe(q, nm).kind == Kind(q)
  {
  }

  // ---- The thread's events as calls ----

  /** What the event at a place of the log does to the group. */
  function EventCalls(src: Sources, m: Machine, e: Thread.Event, x: Sample, clock: nat -> Timestamp): seq<Call> {
    match e
    case GroupEnabled => [EnableCall]
    case GroupDisabled => [DisableCall]
    case Sampled(written) => StepCalls(StepValues(src, m, written, x), clock)
    case GroupFinalised => []
  }

  /** The sample and the times that belong to an event are told by its place in the log. */
  function LogCalls(src: Sources, m: Machine, log: seq<Thread.Event>, xs: nat -> Sample, clocks: nat -> nat -> Timestamp): seq<Call> {
    if log == [] then []
    else
      var n := |log| - 1;
      LogCalls(src, m, log[..n], xs, clocks) + EventCalls(src, m, log[n], xs(n), clocks(n))
  }

  function LogEntries(src: Sources, m: Machine, log: seq<Thread.Event>, xs: nat -> Sample, clocks: nat -> nat -> Timestamp): seq<Entry> {
    if log == [] then []
    else
      var n := |log| - 1;
      LogEntries(src, m, log[..n], xs, clocks)
      + if log[n] == Thread.Sampled(true) then [Entry(clocks(n)(0), StepValues(src, m, true, xs(n)))] else []
  }

  lemma {:induction false} OneEntryEach(src: Sources, m: Machine, log: seq<Thread.Event>, xs: nat -> Sample, clocks: nat -> nat -> Timestamp)
    ensures |LogEntries(src, m, log, xs, clocks)| == Thread.Written(log)
  {
    if log != [] {
      OneEntryEach(src, m, log[..|log| - 1], xs, clocks);
    }
  }

  lemma {:induction false} OneNote(r: Record, ts: seq<ValueType>, c: Call)
    ensures Notes(r, ts, [c]) == Note(r, ts, c)
  {
    assert [c][..0] == [];
    assert Notes(r, ts, []) == r;
  }

  /** A log in which samples fall between enabling and disabling records exactly the entries of its samples. */
  lemma {:induction false} LogIsNoted(src: Sources, m: Machine, log: seq<Thread.Event>, xs: nat -> Sample, clocks: nat -> nat -> Timestamp)
    requires DisksAgree(src, m) && Registered(src, m) != [] && Thread.Proper(log)
    ensures var s := Notes(NOTHING, Registered(src, m), LogCalls(src, m, log, xs, clocks));
      s.done == LogEntries(src, m, log, xs, clocks) && s.enabled == Thread.OnAfter(log) && s.current.values == []
  {
    hide Registered, DisksAgree, Notes, StepValues, StepCalls;
    var ts := Registered(src, m);
    if log == [] {
      NoNotes(NOTHING, ts);
    } else {
      var n := |log| - 1;
      LogIsNoted(src, m, log[..n], xs, clocks);
      var calls, last := LogCalls(src, m, log[..n], xs, clocks), EventCalls(src, m, log[n], xs(n), clocks(n));
      NotesAppend(NOTHING, ts, calls, last);
      var r := Notes(NOTHING, ts, calls);
      match log[n] {
        case GroupEnabled => OneNote(r, ts, EnableCall);
        case GroupDisabled => OneNote(r, ts, DisableCall);
        case Sampled(written) => StepIsWhole(src, m, written, xs(n), clocks(n), r);
        case GroupFinalised => NoNotes(r, ts);
      }
    }
  }

  // ---- The calls are legal ----

  ghost predicate ValidClocks(clocks: nat -> nat -> Timestamp) { forall i: nat, j: nat :: clocks(i)(j).Valid() }

  lemma {:induction false} ValuesAreLegal(vs: seq<Datum>, times: seq<Timestamp>)
    requires |vs| == |times| && (forall v | v in vs :: v.Valid()) && (forall t | t in times :: t.Valid())
    ensures AllLegal(ValueCalls(vs, times))
  {
    hide Datum.Valid, Timestamp.Valid;
    if vs != [] {
      ValuesAreLegal(vs[..|vs| - 1], times[..|vs| - 1]);
    }
  }

  lemma {:induction false} StepIsLegal(src: Sources, m: Machine, written: bool, x: Sample, clock: nat -> Timestamp)
    requires DisksAgree(src, m) && forall j: nat :: clock(j).Valid()
    ensures AllLegal(StepCalls(StepValues(src, m, written, x), clock))
  {
    hide DisksAgree, Registered, Datum.Valid, Timestamp.Valid;
    SchemaAgrees(src, m, x);
    var vs := StepValues(src, m, written, x);
    assert written ==> OfTypes(vs, Registered(src, m));
    ValuesAreLegal(vs, seq(|vs|, i requires i >= 0 => clock(i)));
  }

  lemma {:induction false} LogIsLegal(src: Sources, m: Machine, log: seq<Thread.Event>, xs: nat -> Sample, clocks: nat -> nat -> Timestamp)
    requires DisksAgree(src, m) && ValidClocks(clocks)
    ensures AllLegal(LogCalls(src, m, log, xs, clocks))
  {
    hide DisksAgree, StepValues, StepCalls, Datum.Valid, Timestamp.Valid;
    if log != [] {
      var n := |log| - 1;
      LogIsLegal(src, m, log[..n], xs, clocks);
      if log[n].Sampled? {
        StepIsLegal(src, m, log[n].written, xs(n), clocks(n));
      }
    }
  }

  // ---- The file read alone ----

  /** Reads a file without being told anything about it: its header tells the types of its values. */
  function ReadOwn(file: string): Option<(Description, Report)> {
    var parts := AtHeader(file);
    var d := if parts.None? then None else ReadHeader(parts.value.0);
    if d.None? then None else Some((d.value, ReadFile(file, KindsOf(d.value.columns))))
  }

  lemma {:induction false} OwnHeader(labels: seq<string>, group: string, cs: seq<Column>, body: string)
    requires labels != [] && forall l | l in labels :: '"' !in l
    ensures var file := HeaderBytes(HeaderOf(labels, group, cs)) + body;
      ReadOwn(file) == Some((Description(labels, group, (0, 0), cs), ReadFile(file, KindsOf(cs))))
  {
    hide HeaderBytes, AtHeader, ReadHeader, ReadFile, Opening, Lines, KindsOf;
    HeaderBegins(labels, group, cs);
    HeaderRoundTrip(HeaderOf(labels, group, cs), body);
    DescriptionRoundTrip(labels, group, cs);
  }

  lemma {:induction false} ValueGrows(g: Group, v: Datum, now: Timestamp)
    requires g.enabled ==> g.next < |g.types|
    ensures g.file <= PutValue(g, v, now).0.file
  {
    hide Datum.Bytes, Timestamp.Bytes, Extended;
    ExtendedGrows(if g.next == 0 then g.(pending := now.Bytes()) else g, v.Bytes());
  }

  lemma {:induction false} ExtendedGrows(g: Group, bytes: string)
    ensures g.file <= Extended(g, bytes).0.file
  {
  }

  lemma {:induction false} EntryGrows(g: Group, bytes: string, now: Timestamp)
    ensures g.file <= PutEntry(g, bytes, now).0.file
  {
    hide Timestamp.Bytes;
  }

  lemma {:induction false} StepGrows(g: Group, c: Call)
    ensures g.file <= Step(g, c).file
  {
    hide PutValue, PutEntry;
    if g.running && g.next < |g.types| {
      match c {
        case ValueCall(v, now) => ValueGrows(g, v, now);
        case EntryCall(bytes, now) => EntryGrows(g, bytes, now);
        case _ =>
      }
    }
  }

  lemma {:induction false} FileGrows(g: Group, calls: seq<Call>)
    ensures g.file <= Run(g, calls).file
  {
    hide Step;
    if calls != [] {
      FileGrows(g, calls[..|calls| - 1]);
      StepGrows(Run(g, calls[..|calls| - 1]), calls[|calls| - 1]);
    }
  }

  // ---- The file ----

  lemma {:induction false} MoreNotes(r: Record, ts: seq<ValueType>, calls: seq<Call>, k: nat)
    requires Usable(ts) && Noted(r, ts) && AllLegal(calls) && k <= |calls|
    ensures Notes(r, ts, calls[..k]).done <= Notes(r, ts, calls).done
    decreases |calls| - k
  {
    hide Note, Noted, Legal;
    if k < |calls| {
      MoreNotes(r, ts, calls, k + 1);
      NotesKeep(r, ts, calls[..k]);
      assert calls[k] in calls && calls[..k + 1][..k] == calls[..k];
      NoteKeeps(Notes(r, ts, calls[..k]), ts, calls[k]);
    } else {
      assert calls[..k] == calls;
    }
  }

  /** The group of a sampler, ready to be enabled. */
  predicate Prepared(src: Sources, m: Machine, g: Group, header: string, start: Timestamp) {
    && DisksAgree(src, m) && Registered(src, m) != [] && g.types == Registered(src, m)
    && JustCommitted(g, header, start) && start.Valid() && header != "" && !IsSpace(header[0])
  }

  /** The header of a sampler's file. */
  function HeaderOf(labels: seq<string>, group: string, cs: seq<Column>): string
    requires labels != []
  {
    Opening(labels, group) + Lines(cs) + CLOSING[0] + CLOSING[1]
  }

  lemma {:induction false} HeaderBegins(labels: seq<string>, group: string, cs: seq<Column>)
    requires labels != []
    ensures Opening(labels, group) != "" && HeaderOf(labels, group, cs)[0] == Opening(labels, group)[0] == '<'
  {
    hide Topology, GroupTag, Lines;
  }

  /** Registering and committing prepare the group exactly when the columns are at most 256, header and tags
      fit and the file takes the head; the entry must fit its buffer, which the program does not check. */
  lemma {:induction false} SamplerPrepares(src: Sources, m: Machine, nm: Names, g: Group, labels: seq<string>, group: string, now: Timestamp)
    requires src.Valid() && DisksAgree(src, m) && Registered(src, m) != [] && now.Valid()
    requires Sound(g) && Building(g) && g.types == [] && g.file == "" && !g.enabled
    requires labels != [] && Header(g) == Opening(labels, group) && Lengths(Registered(src, m)) + 8 <= ENTRY_BUFFER
    ensures var cs := Columns(src, m, nm);
      var (r, ok) := RegisterAll(g, cs);
      && (ok <==> |cs| <= MAX_VALUES && |g.pending| + |Lines(cs)| < HEADER_BUFFER)
      && (ok ==> Building(r))
      && (ok ==>
           var (h, done) := Commit(r, now);
           && (done == Failed(BufferOverflow) <==>
                 |g.pending| + |Lines(cs)| + |CLOSING[0]| + |CLOSING[1]| >= HEADER_BUFFER)
           && (done == Done ==> Prepared(src, m, h, HeaderOf(labels, group, cs), now)))
  {
    hide DisksAgree, Registered, RegisterAll, Commit, Lines, Lengths, Timestamp.Valid, Timestamp.Bytes, HeaderBytes, Opening, Columns, AllNamed, KindsOf;
    var ts, cs := Registered(src, m), Columns(src, m, nm);
    RegistrationFits(g, cs);
    ColumnsAreNamed(src, m, nm);
    NoSpecialColumns(src, m);
    FixedIsPrefix(ts);
    var (r, ok) := RegisterAll(g, cs);
    if ok {
      CommitWritesHeader(r, now);
      assert Header(r) == Header(g) + Lines(cs);
      HeaderBegins(labels, group, cs);
    }
  }

  lemma {:induction false} NoSpecialColumns(src: Sources, m: Machine)
    requires DisksAgree(src, m)
    ensures STRING !in Registered(src, m) && UINT64 !in Registered(src, m)
  {
    SchemaAgrees(src, m, Sample(0, _ => 0, 0, 0, 0, 0, 0, 0, _ => 0, _ => 0, 0, 0, (d, i) => 0));
  }

  /** In every interleaving of thread and controller: a reader that knows nothing but the file finds the path,
      the group's name, the columns, and one entry for every sample that was written, in order, each with the
      time of its first value; for each time the group was enabled there is one sample at most that was not
      written. When the file refuses a byte the group stops, and what is found are the entries of the first
      samples. Finalising the group deletes the file exactly when no sample was written. */
  lemma {:induction false} FileOfRun(src: Sources, m: Machine, nm: Names, g: Group, labels: seq<string>, group: string, start: Timestamp,
                                     actions: seq<Thread.Action>, xs: nat -> Sample, clocks: nat -> nat -> Timestamp)
    returns (q: nat, normal: bool)
    requires src.Valid() && labels != [] && forall l | l in labels :: '"' !in l
    requires Prepared(src, m, g, HeaderOf(labels, group, Columns(src, m, nm)), start)
    requires ValidClocks(clocks) && Thread.IsRun(Thread.START, actions)
    ensures var log := Thread.After(Thread.START, actions).log;
      var h := Run(g, LogCalls(src, m, log, xs, clocks));
      var es := LogEntries(src, m, log, xs, clocks);
      && |es| == Thread.Written(log) && q <= |es|
      && |es| <= Thread.Samples(log) <= |es| + Thread.Enablings(log)
      && ReadOwn(h.file) == Some((Description(labels, group, (0, 0), Columns(src, m, nm)), Report(Some(start), es[..q], normal)))
      && (h.running ==> q == |es| == h.count && normal)
      && (h.running ==> FinalFile(h) == if Thread.Written(log) == 0 then None else Some(h.file))
      && (!h.running ==> q < |es|)
  {
    hide Prepared, LogCalls, LogEntries, Thread.Written, Thread.Samples, Thread.Enablings, ReadFile, Run, Thread.IsRun, Thread.After;
    hide ReadOwn, Columns, KindsOf, HeaderOf, Registered, HeaderBytes;
    var log := Thread.After(Thread.START, actions).log;
    Thread.EveryRunIsSafe(Thread.START, actions);
    Thread.EveryRunIsFresh(Thread.START, actions);
    Thread.MostAreWritten(log);
    var cs := Columns(src, m, nm);
    var header := HeaderOf(labels, group, cs);
    q, normal := FileOfLog(src, m, g, header, start, log, xs, clocks);
    var calls := LogCalls(src, m, log, xs, clocks);
    var head := HeaderInFile(src, m, g, header, start);
    FileGrows(g, calls);
    var file := Run(g, calls).file;
    assert file == head + file[|head|..];
    OwnHeader(labels, group, cs, file[|head|..]);
    ColumnsAreNamed(src, m, nm);
  }

  lemma {:induction false} HeaderInFile(src: Sources, m: Machine, g: Group, header: string, start: Timestamp) returns (head: string)
    requires Prepared(src, m, g, header, start)
    ensures head == HeaderBytes(header) && head <= g.file && g.types == Registered(src, m)
  {
    hide HeaderBytes, Timestamp.Bytes, Sound, DisksAgree, Registered;
    head := HeaderBytes(header);
  }

  /** Every value in the file is what the name of its column stands for, measured by the sample to which its
      entry belongs. */
  lemma {:induction false} FileTells(src: Sources, m: Machine, nm: Names, log: seq<Thread.Event>, xs: nat -> Sample,
                                     clocks: nat -> nat -> Timestamp, j: nat, i: nat)
    returns (n: nat)
    requires src.Valid() && DisksAgree(src, m) && Distinct(m, nm)
    requires j < |LogEntries(src, m, log, xs, clocks)| && i < |Columns(src, m, nm)|
    ensures n < |log| && log[n] == Thread.Sampled(true) && Thread.Written(log[..n]) == j
    ensures var (e, c) := (LogEntries(src, m, log, xs, clocks)[j], Columns(src, m, nm)[i]);
      && e.time == clocks(n)(0) && i < |e.values| && c.grouping.Some?
      && LegendOf(c.name, m, nm, xs(n)) == Some(Legend(e.values[i], c.unit, c.grouping.value))
  {
    hide StepValues, DisksAgree, Columns, LegendOf, Distinct, Registered;
    n := SampleOf(src, m, log, xs, clocks, j);
    ColumnTells(src, m, nm, xs(n), i);
  }

  /** The place in the log of the sample that made an entry. */
  lemma {:induction false} SampleOf(src: Sources, m: Machine, log: seq<Thread.Event>, xs: nat -> Sample,
                                    clocks: nat -> nat -> Timestamp, j: nat)
    returns (n: nat)
    requires j < |LogEntries(src, m, log, xs, clocks)|
    ensures n < |log| && log[n] == Thread.Sampled(true) && Thread.Written(log[..n]) == j
    ensures LogEntries(src, m, log, xs, clocks)[j] == Entry(clocks(n)(0), StepValues(src, m, true, xs(n)))
  {
    hide StepValues;
    var k := |log| - 1;
    OneEntryEach(src, m, log[..k], xs, clocks);
    if j < |LogEntries(src, m, log[..k], xs, clocks)| {
      n := SampleOf(src, m, log[..k], xs, clocks, j);
      assert log[..k][..n] == log[..n];
    } else {
      n := k;
    }
  }

  lemma {:induction false} FileOfLog(src: Sources, m: Machine, g: Group, header: string, start: Timestamp,
                                     log: seq<Thread.Event>, xs: nat -> Sample, clocks: nat -> nat -> Timestamp)
    returns (q: nat, normal: bool)
    requires Prepared(src, m, g, header, start) && ValidClocks(clocks) && Thread.Proper(log)
    ensures var h := Run(g, LogCalls(src, m, log, xs, clocks));
      var es := LogEntries(src, m, log, xs, clocks);
      && |es| == Thread.Written(log) && q <= |es|
      && ReadFile(h.file, g.types) == Report(Some(start), es[..q], normal)
      && (h.running ==> q == |es| == h.count && normal)
      && (h.running ==> FinalFile(h) == if Thread.Written(log) == 0 then None else Some(h.file))
      && (!h.running ==> q < |es|)
  {
    hide DisksAgree, Registered, LogCalls, LogEntries, Thread.Written, Notes, Note, ReadFile, Run, JustCommitted, Timestamp.Valid, Thread.Proper;
    var calls, es := LogCalls(src, m, log, xs, clocks), LogEntries(src, m, log, xs, clocks);
    var ts := g.types;
    NoSpecialColumns(src, m);
    LogIsNoted(src, m, log, xs, clocks);
    LogIsLegal(src, m, log, xs, clocks);
    OneEntryEach(src, m, log, xs, clocks);
    StaysCommitted(g, calls);
    assert g.committed by { assert JustCommitted(g, header, start); IsCommitted(g, header, start); }
    var k, tail := ReaderRecoversRun(g, header, start, calls);
    NothingNoted(ts);
    MoreNotes(NOTHING, ts, calls, k);
    var found := Notes(NOTHING, ts, calls[..k]).done;
    q, normal := |found|, |tail| < 4;
    assert es[..q] == found;
    if !Run(g, calls).running {
      MoreNotes(NOTHING, ts, calls, k + 1);
      StepOfNotes(ts, calls, k);
    } else {
      assert calls[..k] == calls;
    }
  }

  lemma {:induction false} IsCommitted(g: Group, header: string, start: Timestamp)
    requires JustCommitted(g, header, start)
    ensures g.committed
  {
  }

  lemma {:induction false} NothingNoted(ts: seq<ValueType>)
    requires ts != []
    ensures Noted(NOTHING, ts)
  {
    assert Power256(4) > 0;
  }

  lemma {:induction false} StepOfNotes(ts: seq<ValueType>, calls: seq<Call>, k: nat)
    requires Usable(ts) && AllLegal(calls) && k < |calls|
    ensures Notes(NOTHING, ts, calls[..k]).done <= Notes(NOTHING, ts, calls[..k + 1]).done
  {
    NothingNoted(ts);
    assert calls[..k + 1][..k] == calls[..k];
    forall c | c in calls[..k + 1] ensures Legal(c) {
    }
    MoreNotes(NOTHING, ts, calls[..k + 1], k);
  }
}
