/** A statistics group: its header, its state, and the entries it collects value by value. */
module StatsGroups {
  import opened Basics
  import opened LogFiles
  import opened Decimals
  import opened StatsFormat
  import opened StatsHeaders

  const MAX_VALUES := 256

  datatype GroupError = InvalidArgument | BufferOverflow | CommitState | Disabled | EntryState | UnexpectedLength | Aborted

  datatype Result = Done | Failed(error: GroupError)

  /** A group: its value types, what waits in its buffer, what is on file. A group whose file cannot be
      written stops: every error case of the flush falls into an assertion. */
  datatype Group = Group(
    types: seq<ValueType>, entryLength: nat, hasString: bool,
    next: nat, pending: string, count: nat,
    committed: bool, enabled: bool, running: bool,
    file: string, env: seq<Outcome>)

  function Size(g: Group): nat { if g.committed then ENTRY_BUFFER else HEADER_BUFFER }

  /** The columns in front of the first string column. */
  function Fixed(ts: seq<ValueType>): seq<ValueType> {
    if ts == [] then []
    else if STRING in ts[..|ts| - 1] then Fixed(ts[..|ts| - 1])
    else if ts[|ts| - 1] == STRING then ts[..|ts| - 1]
    else ts
  }

  // ---- What the calls do ----

  function FlushGroup(g: Group): Group {
    var e := WriteAll(g.pending, g.env);
    var h := g.(file := g.file + e.accepted, env := e.rest);
    if e.status.Ok? then h.(pending := "") else h.(running := false)
  }

  /** Text that does not fit together with its terminator is refused. */
  function Append(g: Group, text: string): (Group, bool) {
    if |g.pending| + |text| >= Size(g) then (g, false) else (g.(pending := g.pending + text), true)
  }

  function AppendAll(g: Group, pieces: seq<string>): (Group, bool)
    decreases |pieces|
  {
    if pieces == [] then (g, true)
    else
      var (h, ok) := Append(g, pieces[0]);
      if ok then AppendAll(h, pieces[1..]) else (h, false)
  }

  function WithType(g: Group, t: ValueType): Group {
    g.(types := g.types + [t], next := g.next + 1,
       entryLength := if g.hasString then g.entryLength else g.entryLength + TypeLength(t),
       hasString := g.hasString || TypeLength(t) == 0)
  }

  /** The type is registered before its tag is known to fit. */
  function Register(g: Group, t: ValueType, tag: string): (Group, Result) {
    if g.next >= MAX_VALUES then (g, Failed(BufferOverflow))
    else if g.committed then (g, Failed(CommitState))
    else
      var (h, ok) := AppendAll(WithType(g, t), [INDENT, tag]);
      (h, if ok then Done else Failed(BufferOverflow))
  }

  /** Names that are there are not empty. */
  predicate Named(c: Column) { c.name != "" && c.unit != Some("") && c.grouping != Some("") }

  function RegisterColumn(g: Group, c: Column): (Group, Result) {
    if Named(c) then Register(g, c.kind, Tag(c)) else (g, Failed(GroupError.InvalidArgument))
  }

  function WithLength(pending: string): string
    requires |pending| > HEADER_DIGITS
  {
    var field := Padded(|pending| - HEADER_DIGITS - 1, HEADER_DIGITS);
    (if |field| < HEADER_DIGITS then field else field[..HEADER_DIGITS]) + "\n" + pending[HEADER_DIGITS + 1..]
  }

  function Commit(g: Group, now: Timestamp): (Group, Result)
    requires g.committed || |g.pending| > HEADER_DIGITS
  {
    if g.committed then (g, Failed(CommitState))
    else
      var (h, ok) := AppendAll(g, CLOSING);
      if !ok || |h.pending| <= HEADER_DIGITS then (h, Failed(BufferOverflow))
      else
        var f := FlushGroup(h.(pending := WithLength(h.pending)));
        if !f.running then (f, Failed(Aborted))
        else
          var c := FlushGroup(f.(pending := now.Bytes(), next := 0, count := 0, committed := true));
          (c, if c.running then Done else Failed(Aborted))
  }

  function Enable(g: Group): Group { g.(enabled := g.enabled || g.committed) }

  function Disable(g: Group): Group { g.(enabled := g.enabled && !g.committed) }

  /** Takes a value's bytes; behind the last column the entry goes to the file. */
  function Extended(g: Group, bytes: string): (Group, Result) {
    var h := g.(pending := g.pending + bytes, next := g.next + 1);
    if |h.pending| == h.entryLength + 8 then
      var f := FlushGroup(h);
      if f.running then (f.(count := f.count + 1, next := 0), Done) else (f, Failed(Aborted))
    else (h, Done)
  }

  function AppendValue(g: Group, t: ValueType, bytes: string, now: Timestamp): (Group, Result)
    requires g.enabled ==> g.next < |g.types|
  {
    if !g.enabled then (g, Failed(Disabled))
    else if !g.committed then (g, Failed(CommitState))
    else if g.types[g.next] != t then (g, Failed(EntryState))
    else if (g.next == 0) != (g.pending == "") then (g.(running := false), Failed(Aborted))
    else Extended(if g.next == 0 then g.(pending := now.Bytes()) else g, bytes)
  }

  /** The writer for unsigned 64-bit values hands its value to the one for signed values. */
  function Writes(t: ValueType): ValueType { if t == UINT64 then INT64 else t }

  function PutValue(g: Group, v: Datum, now: Timestamp): (Group, Result)
    requires g.enabled ==> g.next < |g.types|
  {
    AppendValue(g, Writes(v.kind), v.Bytes(), now)
  }

  function PutEntry(g: Group, bytes: string, now: Timestamp): (Group, Result) {
    if !g.enabled then (g, Failed(Disabled))
    else if !g.committed then (g, Failed(CommitState))
    else if !g.hasString && |bytes| != g.entryLength then (g, Failed(UnexpectedLength))
    else if g.pending != "" || g.next != 0 then (g, Failed(EntryState))
    else
      var h := g.(pending := now.Bytes(), count := g.count + 1);
      if bytes == "" then (h, Done)
      else
        var f := FlushGroup(h.(pending := h.pending + bytes));
        (f, if f.running then Done else Failed(Aborted))
  }

  /** What is left of a group's file when the group is finalised: it is deleted when it has no entry. */
  function FinalFile(g: Group): Option<string> { if g.committed && g.count == 0 then None else Some(g.file) }

  /** Text that is taken whole, or refused because there is no room for it. */
  predicate Taken(g: Group, h: Group, ok: bool, text: string) {
    && (ok <==> |g.pending| + |text| < Size(g))
    && (ok ==> h == g.(pending := g.pending + text))
  }

  lemma {:induction false} TakenBoth(g: Group, h: Group, k: Group, a: string, b: string, ok: bool)
    requires Taken(g, h, true, a) && Taken(h, k, ok, b)
    ensures Taken(g, k, ok, a + b)
  {
    assert g.pending + a + b == g.pending + (a + b);
  }

  lemma {:induction false} TooLong(g: Group, h: Group, a: string, b: string)
    requires Taken(g, h, false, a)
    ensures Taken(g, h, false, a + b)
  {
  }

  lemma {:induction false} NothingTaken(g: Group)
    requires |g.pending| < Size(g)
    ensures Taken(g, g, true, "")
  {
    assert g.pending + "" == g.pending;
  }

  // ---- The invariant of a group ----

  predicate Building(g: Group) { !g.committed && HEADER_DIGITS < |g.pending| < HEADER_BUFFER && g.next == |g.types| }

  /** The position in the buffer is determined by the position in the entry. */
  predicate Collecting(g: Group) {
    && g.committed
    && g.entryLength + 8 <= ENTRY_BUFFER
    && (g.next == 0 ==> |g.pending| in {0, 8})
    && (g.next > 0 ==> g.next < |Fixed(g.types)| && g.next <= |g.types| && |g.pending| == 8 + Lengths(g.types[..g.next]))
  }

  predicate Sound(g: Group) {
    && g.running
    && |g.types| <= MAX_VALUES
    && g.entryLength == Lengths(Fixed(g.types))
    && (g.hasString <==> STRING in g.types)
    && (Building(g) || Collecting(g))
    && (g.enabled ==> g.committed)
  }

  lemma {:induction false} FixedIsPrefix(ts: seq<ValueType>)
    ensures Fixed(ts) <= ts && STRING !in Fixed(ts)
    ensures STRING !in ts ==> Fixed(ts) == ts
    ensures |Fixed(ts)| < |ts| ==> ts[|Fixed(ts)|] == STRING
    decreases |ts|
  {
    if ts != [] {
      FixedIsPrefix(ts[..|ts| - 1]);
    }
  }

  /** A flush moves the whole buffer to the file or stops the group with a proper part of it on file. */
  lemma {:induction false} FlushMeans(g: Group)
    requires g.running
    ensures var h := FlushGroup(g);
      && h == g.(file := h.file, env := h.env, pending := h.pending, running := h.running)
      && (h.running ==> h.file == g.file + g.pending && h.pending == "")
      && (!h.running ==> g.file <= h.file < g.file + g.pending)
  {
    WriteAllMeaning(g.pending, g.env);
    var k := Min(Capacity(g.env), |g.pending|);
    assert g.file + g.pending == (g.file + g.pending[..k]) + g.pending[k..];
  }

  lemma {:induction false} AppendAllKeeps(g: Group, pieces: seq<string>)
    requires |g.pending| < Size(g)
    ensures var h := AppendAll(g, pieces).0;
      h == g.(pending := h.pending) && g.pending <= h.pending && |h.pending| < Size(g)
    decreases |pieces|
  {
    if pieces != [] {
      var (h, ok) := Append(g, pieces[0]);
      AppendAllKeeps(h, pieces[1..]);
    }
  }

  /** Registering a value: its type and its tag are both taken, or the header has no room and
      the type is taken without its tag. */
  lemma {:induction false} RegisterKeeps(g: Group, t: ValueType, tag: string)
    requires Sound(g)
    ensures var (h, r) := Register(g, t, tag);
      && Sound(h)
      && (r == Done ==> Building(g) && h.types == g.types + [t] && h.pending == g.pending + INDENT + tag)
      && (r == Failed(BufferOverflow) && |g.types| < MAX_VALUES ==>
            h.types == g.types + [t] && (h.pending == g.pending || h.pending == g.pending + INDENT))
      && (r == Failed(CommitState) <==> g.committed && g.next < MAX_VALUES)
  {
    hide AppendAll, Fixed, Lengths;
    if g.next < MAX_VALUES && !g.committed {
      var h := WithType(g, t);
      WithTypeKeeps(g, t);
      AppendAllKeeps(h, [INDENT, tag]);
      AppendBoth(h, INDENT, tag);
    }
  }

  /** A value without a name, or with an empty unit or grouping, is refused, and nothing else is for that reason. */
  lemma {:induction false} EmptyIsRefused(g: Group, c: Column)
    ensures RegisterColumn(g, c).1 == Failed(GroupError.InvalidArgument) <==>
      c.name == "" || (c.unit.Some? && |c.unit.value| == 0) || (c.grouping.Some? && |c.grouping.value| == 0)
    ensures RegisterColumn(g, c).1 == Failed(GroupError.InvalidArgument) ==> RegisterColumn(g, c).0 == g
  {
    hide Tag, AppendAll;
  }

  lemma {:induction false} WithTypeKeeps(g: Group, t: ValueType)
    requires Sound(g) && Building(g) && g.next < MAX_VALUES
    ensures Sound(WithType(g, t))
  {
    FixedIsPrefix(g.types);
    var h := WithType(g, t);
    assert h.types[..|h.types| - 1] == g.types;
  }

  lemma {:induction false} AppendBoth(g: Group, a: string, b: string)
    requires |g.pending| < Size(g)
    ensures var (h, ok) := AppendAll(g, [a, b]);
      && (ok <==> |g.pending| + |a| + |b| < Size(g))
      && (ok ==> h.pending == g.pending + a + b)
      && (!ok ==> h.pending == g.pending || h.pending == g.pending + a)
  {
    var h := g.(pending := g.pending + a);
    assert [a, b][1..] == [b] && [b][1..] == [];
    assert Append(h, b).1 ==> AppendAll(Append(h, b).0, []) == (Append(h, b).0, true);
    assert AppendAll(h, [b]) == Append(h, b);
  }

  /** The header text so far. */
  function Header(g: Group): string
    requires |g.pending| > HEADER_DIGITS
  {
    g.pending[HEADER_DIGITS + 1..]
  }

  lemma {:induction false} LengthField(pending: string)
    requires HEADER_DIGITS < |pending| < HEADER_BUFFER
    ensures WithLength(pending) == HeaderBytes(pending[HEADER_DIGITS + 1..])
  {
    var header := pending[HEADER_DIGITS + 1..];
    PaddedField(|header|, HEADER_DIGITS);
    assert Power(5) == 100000 by {
      assert Power(1) == 10 && Power(2) == 100 && Power(3) == 1000 && Power(4) == 10000;
    }
  }

  /** Committing writes a complete file head: five digits that count the header exactly, the header,
      the start time. It fails exactly when the closing tags do not fit or the file refuses a byte. */
  lemma {:induction false} CommitWritesHeader(g: Group, now: Timestamp)
    requires Sound(g) && Building(g) && g.file == "" && g.entryLength + 8 <= ENTRY_BUFFER
    ensures var (h, r) := Commit(g, now);
      var header := Header(g) + CLOSING[0] + CLOSING[1];
      && (r == Done ==> Sound(h) && h == g.(committed := true, pending := "", next := 0, count := 0, file := h.file, env := h.env))
      && (r == Done ==> |header| < 100000 && h.file == HeaderBytes(header) + now.Bytes())
      && (r == Failed(BufferOverflow) <==> |g.pending| + |CLOSING[0]| + |CLOSING[1]| >= HEADER_BUFFER)
      && (r == Failed(Aborted) ==> !h.running && h.file <= HeaderBytes(header) + now.Bytes())
      && r in {Done, Failed(BufferOverflow), Failed(Aborted)}
  {
    hide Timestamp.Bytes, HeaderBytes, Lengths, Fixed, FlushGroup, AppendAll, Append, WithLength;
    AppendBoth(g, CLOSING[0], CLOSING[1]);
    AppendAllKeeps(g, CLOSING);
    assert CLOSING == [CLOSING[0], CLOSING[1]];
    var (a, ok) := AppendAll(g, CLOSING);
    if ok {
      LengthField(a.pending);
      assert Header(a) == Header(g) + CLOSING[0] + CLOSING[1];
      var head := a.(pending := WithLength(a.pending));
      FlushMeans(head);
      var f := FlushGroup(head);
      if f.running {
        FlushMeans(f.(pending := now.Bytes(), next := 0, count := 0, committed := true));
      }
    }
  }

  // ---- What a committed group records ----

  datatype Call =
    | EnableCall
    | DisableCall
    | ValueCall(datum: Datum, now: Timestamp)
    | EntryCall(bytes: string, now: Timestamp)

  predicate Legal(c: Call) {
    match c
    case ValueCall(d, now) => d.Valid() && now.Valid()
    case EntryCall(bytes, now) => now.Valid() && IsBytes(bytes)
    case _ => true
  }

  /** A stopped group does nothing any more. */
  function Step(g: Group, c: Call): Group {
    if !g.running || g.next >= |g.types| then g
    else match c
    case EnableCall => Enable(g)
    case DisableCall => Disable(g)
    case ValueCall(d, now) => PutValue(g, d, now).0
    case EntryCall(bytes, now) => PutEntry(g, bytes, now).0
  }

  /** The calls seen as a list of entries: the complete ones and the one being filled. */
  datatype Record = Record(enabled: bool, done: seq<Entry>, current: Entry)

  function AddDatum(r: Record, ts: seq<ValueType>, d: Datum, now: Timestamp): Record {
    var e := Longer(r.current, d, now);
    if |e.values| == |ts| then r.(done := r.done + [e], current := e.(values := [])) else r.(current := e)
  }

  /** A value is taken exactly when the group is enabled and the value has the type of the next column;
      a whole entry exactly when the group is enabled, no entry is begun and the length is right. */
  function Note(r: Record, ts: seq<ValueType>, c: Call): Record {
    if |r.current.values| >= |ts| then r
    else match c
    case EnableCall => r.(enabled := true)
    case DisableCall => r.(enabled := false)
    case ValueCall(d, now) =>
      var kind := Writes(d.kind);
      if r.enabled && kind == ts[|r.current.values|] then AddDatum(r, ts, Datum(kind, d.bits), now) else r
    case EntryCall(bytes, now) =>
      if r.enabled && |bytes| == Lengths(ts) && r.current.values == []
      then r.(done := r.done + [Entry(now, ReadValues(bytes, ts))])
      else r
  }

  predicate Usable(ts: seq<ValueType>) { ts != [] && STRING !in ts }

  predicate Noted(r: Record, ts: seq<ValueType>) {
    && |r.current.values| < |ts|
    && r.current.time.Valid()
    && OfTypes(r.current.values, ts[..|r.current.values|])
    && forall e | e in r.done :: Complete(e, ts)
  }

  function PendingBytes(e: Entry): string { if e.values == [] then "" else EntryBytes(e) }

  /** The group's fields are exactly what the record says. */
  predicate Shows(g: Group, head: string, r: Record) {
    && g.running && g.committed
    && g.entryLength == Lengths(g.types)
    && !g.hasString
    && g.enabled == r.enabled
    && g.next == |r.current.values|
    && g.pending == PendingBytes(r.current)
    && g.count == |r.done|
    && g.file == head + EntriesBytes(r.done)
  }

  lemma {:induction false} LengthsGrow(ts: seq<ValueType>, i: nat)
    requires STRING !in ts && i < |ts|
    ensures Lengths(ts[..i]) < Lengths(ts)
    ensures Lengths(ts[..i]) + TypeLength(ts[i]) <= Lengths(ts)
    ensures Lengths(ts[..i]) + TypeLength(ts[i]) == Lengths(ts) <==> i + 1 == |ts|
    decreases |ts|
  {
    var n := |ts| - 1;
    assert ts[n] in ts;
    if i < n {
      assert ts[..n][..i] == ts[..i];
      LengthsGrow(ts[..n], i);
    }
  }

  /** A group whose next column exists, as it does in every sound group that has a column at all. */
  predicate Ready(g: Group) { Sound(g) && (g.enabled ==> g.next < |g.types|) }

  /** The next value fits the entry buffer, and the entry is complete exactly behind the last column in
      front of a string: the buffer's position says so. */
  lemma {:induction false} ValueFits(g: Group)
    requires Sound(g) && Collecting(g) && g.next < |g.types| && g.types[g.next] != STRING
    ensures var size := (if g.next == 0 then 8 else |g.pending|) + TypeLength(g.types[g.next]);
      && g.next < |Fixed(g.types)|
      && size == 8 + Lengths(g.types[..g.next + 1])
      && size <= g.entryLength + 8
      && (size == g.entryLength + 8 <==> g.next + 1 == |Fixed(g.types)|)
  {
    FixedIsPrefix(g.types);
    var f, i := Fixed(g.types), g.next;
    assert f[i] == g.types[i] && f[..i] == g.types[..i] == g.types[..i + 1][..i];
    LengthsGrow(f, i);
  }

  lemma {:induction false} AppendKeepsSound(g: Group, t: ValueType, bytes: string, now: Timestamp)
    requires Ready(g) && t != STRING && |bytes| == TypeLength(t)
    ensures var h := AppendValue(g, t, bytes, now).0;
      h.running ==> Sound(h)
  {
    hide Timestamp.Bytes, FlushGroup;
    if g.enabled && g.types[g.next] == t && (g.next == 0) == (g.pending == "") {
      ValueFits(g);
      var e := if g.next == 0 then g.(pending := now.Bytes()) else g;
      FlushMeans(e.(pending := e.pending + bytes, next := e.next + 1));
    }
  }

  /** The entry with one more value. */
  function Longer(e: Entry, d: Datum, now: Timestamp): Entry {
    Entry(if e.values == [] then now else e.time, e.values + [d])
  }

  lemma {:induction false} LongerBytes(e: Entry, d: Datum, now: Timestamp, ts: seq<ValueType>)
    requires STRING !in ts && |e.values| < |ts| && OfTypes(e.values, ts[..|e.values|])
    requires d.kind == ts[|e.values|]
    ensures var p := (if e.values == [] then now.Bytes() else PendingBytes(e)) + d.Bytes();
      && p == EntryBytes(Longer(e, d, now))
      && (|e.values| + 1 == |ts| ==> |p| == EntryLength(ts))
      && (|p| == 8 + Lengths(ts) <==> |e.values| + 1 == |ts|)
      && (e.values != [] ==> PendingBytes(e) != "")
  {
    hide Datum.Bytes, Datum.Valid, Timestamp.Bytes, TypeLength;
    var i := |e.values|;
    LongerIs(e, d, now);
    ValuesRoundTrip(e.values, ts[..i]);
    LengthsGrow(ts, i);
  }

  lemma {:induction false} LongerIs(e: Entry, d: Datum, now: Timestamp)
    ensures EntryBytes(Longer(e, d, now)) ==
      (if e.values == [] then now.Bytes() else EntryBytes(e)) + d.Bytes()
    ensures |EntryBytes(Longer(e, d, now))| == 8 + |ValuesBytes(e.values)| + TypeLength(d.kind)
  {
    hide Datum.Bytes, Timestamp.Bytes, TypeLength;
    var l, vs := Longer(e, d, now), ValuesBytes(e.values);
    assert l.values[..|e.values|] == e.values;
    assert l.time.Bytes() + (vs + d.Bytes()) == l.time.Bytes() + vs + d.Bytes();
    assert e.values == [] ==> now.Bytes() + "" == now.Bytes();
  }

  lemma {:induction false} OneMoreEntry(es: seq<Entry>, e: Entry)
    ensures EntriesBytes(es + [e]) == EntriesBytes(es) + EntryBytes(e)
  {
    assert (es + [e])[..|es|] == es;
  }

  /** One value: it enters the buffer behind the values before it, and the entry is flushed exactly
      when the value is its last. */
  lemma {:induction false} ValueIsNoted(g: Group, head: string, r: Record, d: Datum, now: Timestamp)
    requires Usable(g.types) && Noted(r, g.types) && Shows(g, head, r)
    requires Legal(ValueCall(d, now))
    ensures var (h, result) := PutValue(g, d, now);
      var s := Note(r, g.types, ValueCall(d, now));
      && h.types == g.types
      && (h.running ==> Shows(h, head, s))
      && (!h.running ==> s.done != r.done && g.file <= h.file && |h.file| < |g.file| + EntryLength(g.types))
      && (result == Failed(Disabled) <==> !r.enabled)
      && (result == Failed(EntryState) <==> r.enabled && Writes(d.kind) != g.types[|r.current.values|])
      && (result == Failed(Aborted) <==> !h.running)
  {
    hide Datum.Bytes, Timestamp.Bytes, EntriesBytes, EntryBytes, FlushGroup;
    var i := |r.current.values|;
    var kind := Writes(d.kind);
    if g.enabled && g.types[i] == kind {
      var v := Datum(kind, d.bits);
      assert v.Bytes() == d.Bytes() by { SameBytes(d); }
      LongerBytes(r.current, v, now, g.types);
      if i + 1 == |g.types| {
        OneMoreEntry(r.done, Longer(r.current, v, now));
        var s := Note(r, g.types, ValueCall(d, now));
        assert |s.done| == |r.done| + 1;
        FlushMeans(g.(pending := EntryBytes(Longer(r.current, v, now)), next := i + 1));
      }
    }
  }

  lemma {:induction false} SameBytes(d: Datum)
    ensures Datum(Writes(d.kind), d.bits).Bytes() == d.Bytes()
  {
  }

  /** A whole entry at once: its bytes are the bytes of the values the reader will find. */
  lemma {:induction false} EntryIsNoted(g: Group, head: string, r: Record, bytes: string, now: Timestamp)
    requires Usable(g.types) && Noted(r, g.types) && Shows(g, head, r)
    requires Legal(EntryCall(bytes, now))
    ensures var (h, result) := PutEntry(g, bytes, now);
      var s := Note(r, g.types, EntryCall(bytes, now));
      && h.types == g.types
      && (h.running ==> Shows(h, head, s))
      && (!h.running ==> s.done != r.done && g.file <= h.file && |h.file| < |g.file| + EntryLength(g.types))
      && (result == Failed(UnexpectedLength) <==> r.enabled && |bytes| != Lengths(g.types))
      && (result == Failed(EntryState) <==> r.enabled && |bytes| == Lengths(g.types) && r.current.values != [])
  {
    hide Datum.Bytes, Timestamp.Bytes, EntriesBytes, FlushGroup, ReadValues, Datum.Valid;
    LengthsGrow(g.types, 0);
    PendingIsEmpty(r.current);
    if g.enabled && |bytes| == g.entryLength && g.next == 0 {
      ReadValuesRoundTrip(bytes, g.types);
      var e := Entry(now, ReadValues(bytes, g.types));
      OneMoreEntry(r.done, e);
      var s := Note(r, g.types, EntryCall(bytes, now));
      assert |s.done| == |r.done| + 1;
      FlushMeans(g.(pending := EntryBytes(e), count := g.count + 1));
    }
  }

  lemma {:induction false} PendingIsEmpty(e: Entry)
    ensures PendingBytes(e) == "" <==> e.values == []
  {
  }

  lemma {:induction false} StepIsNoted(g: Group, head: string, r: Record, c: Call)
    requires Usable(g.types) && Noted(r, g.types) && Shows(g, head, r) && Legal(c)
    ensures var (h, s) := (Step(g, c), Note(r, g.types, c));
      && h.types == g.types
      && (h.running ==> Shows(h, head, s))
      && (!h.running ==> s.done != r.done && g.file <= h.file && |h.file| < |g.file| + EntryLength(g.types))
  {
    hide PutValue, PutEntry, EntriesBytes, PendingBytes;
    match c {
      case ValueCall(d, now) => ValueIsNoted(g, head, r, d, now);
      case EntryCall(bytes, now) => EntryIsNoted(g, head, r, bytes, now);
      case _ =>
    }
  }

  lemma {:induction false} NoteKeeps(r: Record, ts: seq<ValueType>, c: Call)
    requires Usable(ts) && Noted(r, ts) && Legal(c)
    ensures Noted(Note(r, ts, c), ts) && r.done <= Note(r, ts, c).done
  {
    hide ReadValues, Lengths, Power256;
    var i := |r.current.values|;
    match c {
      case ValueCall(d, now) =>
        if r.enabled && Writes(d.kind) == ts[i] {
          assert Datum(Writes(d.kind), d.bits).Valid() by { SameBytes(d); }
          var e := Longer(r.current, Datum(Writes(d.kind), d.bits), now);
          assert OfTypes(e.values, ts[..i + 1]);
          assert ts[..|ts|] == ts;
        }
      case EntryCall(bytes, now) =>
        if |bytes| == Lengths(ts) {
          ReadValuesRoundTrip(bytes, ts);
        }
      case _ =>
    }
  }

  // ---- Runs of a committed group ----

  function Run(g: Group, calls: seq<Call>): Group {
    if calls == [] then g else Step(Run(g, calls[..|calls| - 1]), calls[|calls| - 1])
  }

  function Notes(r: Record, ts: seq<ValueType>, calls: seq<Call>): Record {
    if calls == [] then r else Note(Notes(r, ts, calls[..|calls| - 1]), ts, calls[|calls| - 1])
  }

  lemma {:induction false} StaysCommitted(g: Group, calls: seq<Call>)
    ensures Run(g, calls).committed == g.committed
  {
    hide Step;
    if calls != [] {
      StaysCommitted(g, calls[..|calls| - 1]);
      StepStaysCommitted(Run(g, calls[..|calls| - 1]), calls[|calls| - 1]);
    }
  }

  lemma {:induction false} StepStaysCommitted(g: Group, c: Call)
    ensures Step(g, c).committed == g.committed
  {
    hide WriteAll, Datum.Bytes, Timestamp.Bytes;
  }

  predicate AllLegal(calls: seq<Call>) { forall c | c in calls :: Legal(c) }

  lemma {:induction false} NotesKeep(r: Record, ts: seq<ValueType>, calls: seq<Call>)
    requires Usable(ts) && Noted(r, ts) && AllLegal(calls)
    ensures Noted(Notes(r, ts, calls), ts)
  {
    if calls != [] {
      NotesKeep(r, ts, calls[..|calls| - 1]);
      NoteKeeps(Notes(r, ts, calls[..|calls| - 1]), ts, calls[|calls| - 1]);
    }
  }

  /** Over every run of calls the file is the head followed by the entries completed so far. A run that
      stops does so while completing an entry, and leaves a proper part of that entry behind. */
  lemma {:induction false} RunIsNoted(g: Group, head: string, r: Record, calls: seq<Call>) returns (k: nat, tail: string)
    requires Usable(g.types) && Noted(r, g.types) && Shows(g, head, r) && AllLegal(calls)
    ensures var h := Run(g, calls);
      && h.types == g.types
      && (h.running ==> k == |calls| && tail == "" && Shows(h, head, Notes(r, g.types, calls)))
      && k <= |calls|
      && (!h.running ==> k < |calls| && Notes(r, g.types, calls[..k]).done != Notes(r, g.types, calls[..k + 1]).done)
      && h.file == head + EntriesBytes(Notes(r, g.types, calls[..k]).done) + tail
      && |tail| < EntryLength(g.types)
  {
    hide EntriesBytes, Step, Note, Noted;
    if calls == [] {
      k, tail := 0, "";
      assert g.file + "" == g.file && calls[..0] == [];
    } else {
      var n := |calls| - 1;
      k, tail := RunIsNoted(g, head, r, calls[..n]);
      var before := Run(g, calls[..n]);
      if before.running {
        var s := Notes(r, g.types, calls[..n]);
        NotesKeep(r, g.types, calls[..n]);
        StepIsNoted(before, head, s, calls[n]);
        var after := Step(before, calls[n]);
        assert calls[..n + 1] == calls;
        if after.running {
          k := |calls|;
          assert after.file + "" == after.file;
        } else {
          k, tail := n, after.file[|before.file|..];
        }
      } else {
        assert Run(g, calls) == before by { Stopped(before, calls[n]); }
        assert calls[..n][..k] == calls[..k] && calls[..n][..k + 1] == calls[..k + 1];
      }
    }
  }

  lemma {:induction false} Stopped(g: Group, c: Call)
    requires !g.running
    ensures Step(g, c) == g
  {
  }

  /** The record of a group that has just been committed. */
  const NOTHING := Record(false, [], Entry(Timestamp(0, 0), []))

  /** A group as it leaves a successful commit. */
  predicate JustCommitted(g: Group, header: string, start: Timestamp) {
    && Sound(g) && g.committed && !g.enabled && g.next == 0 && g.pending == "" && g.count == 0
    && g.file == HeaderBytes(header) + start.Bytes()
  }

  /** From commit to finalisation: the reader, told the same types, recovers the start time and exactly
      the entries that were completed, in order. A run that stops loses only the entry it stopped in,
      and the reader notices exactly when four bytes or more of that entry are on file. */
  lemma {:induction false} ReaderRecoversRun(g: Group, header: string, start: Timestamp, calls: seq<Call>)
    returns (k: nat, tail: string)
    requires Usable(g.types) && JustCommitted(g, header, start) && start.Valid() && AllLegal(calls)
    requires header != "" && !IsSpace(header[0])
    ensures var h := Run(g, calls);
      && k <= |calls|
      && ReadFile(h.file, g.types) == Report(Some(start), Notes(NOTHING, g.types, calls[..k]).done, |tail| < 4)
      && (h.running ==> k == |calls| && tail == "" && h.count == |Notes(NOTHING, g.types, calls).done|)
      && (!h.running ==> k < |calls|)
      && (!h.running ==> Notes(NOTHING, g.types, calls[..k]).done != Notes(NOTHING, g.types, calls[..k + 1]).done)
  {
    hide Run, Note, Notes, Timestamp.Bytes, TimestampOf, HeaderBytes, AfterHeader, ReadEntries, EntriesBytes, Power256, Fixed, Lengths;
    var ts := g.types;
    FixedIsPrefix(ts);
    assert EntriesBytes([]) == "" by { NoBytes(); }
    var head := HeaderBytes(header) + start.Bytes();
    assert head + "" == head;
    k, tail := RunIsNoted(g, head, NOTHING, calls);
    NotesKeep(NOTHING, ts, calls[..k]);
    assert calls[..|calls|] == calls;
    var es := Notes(NOTHING, ts, calls[..k]).done;
    var body := start.Bytes() + (EntriesBytes(es) + tail);
    assert Run(g, calls).file == HeaderBytes(header) + body;
    HeaderRoundTrip(header, body);
    TimestampRoundTrip(start);
    assert body[..8] == start.Bytes() && body[8..] == EntriesBytes(es) + tail;
    CutEntries(start, es, ts, tail);
  }

  lemma {:induction false} NoBytes()
    ensures EntriesBytes([]) == ""
  {
  }

  // ---- Which entries the typed writers can complete ----

  /** One call per value. */
  function ValueCalls(vs: seq<Datum>, times: seq<Timestamp>): seq<Call>
    requires |vs| == |times|
  {
    if vs == [] then []
    else ValueCalls(vs[..|vs| - 1], times[..|vs| - 1]) + [ValueCall(vs[|vs| - 1], times[|vs| - 1])]
  }

  lemma {:induction false} PartialEntry(r: Record, ts: seq<ValueType>, vs: seq<Datum>, times: seq<Timestamp>)
    requires r.enabled && r.current.values == [] && 0 < |vs| == |times| < |ts|
    requires UINT64 !in ts && OfTypes(vs, ts[..|vs|])
    ensures Notes(r, ts, ValueCalls(vs, times)) == r.(current := Entry(times[0], vs))
  {
    hide Datum.Valid;
    var n := |vs| - 1;
    var calls := ValueCalls(vs, times);
    assert calls[..n] == ValueCalls(vs[..n], times[..n]) by { CallCount(vs[..n], times[..n]); }
    CallCount(vs, times);
    assert ts[..n + 1][n] == ts[n] && ts[n] in ts && vs[n].kind == ts[n];
    if n > 0 {
      assert ts[..n] == ts[..|vs|][..n];
      PartialEntry(r, ts, vs[..n], times[..n]);
      assert vs[..n] + [vs[n]] == vs;
    } else {
      assert calls[..0] == [];
      assert [] + [vs[0]] == vs;
    }
  }

  lemma {:induction false} CallCount(vs: seq<Datum>, times: seq<Timestamp>)
    requires |vs| == |times|
    ensures |ValueCalls(vs, times)| == |vs|
  {
    if vs != [] {
      CallCount(vs[..|vs| - 1], times[..|vs| - 1]);
    }
  }

  /** Writing one value of every column, in order, records exactly one entry with the time of the first
      value, provided no column is unsigned. */
  lemma {:induction false} ValuesMakeEntry(r: Record, ts: seq<ValueType>, vs: seq<Datum>, times: seq<Timestamp>)
    requires r.enabled && r.current.values == [] && ts != []
    requires |vs| == |times| && OfTypes(vs, ts) && UINT64 !in ts
    ensures var s := Notes(r, ts, ValueCalls(vs, times));
      s.done == r.done + [Entry(times[0], vs)] && s.enabled && s.current.values == []
  {
    hide Datum.Valid;
    var n := |vs| - 1;
    var calls := ValueCalls(vs, times);
    assert calls[..n] == ValueCalls(vs[..n], times[..n]) by { CallCount(vs[..n], times[..n]); }
    CallCount(vs, times);
    assert ts[n] in ts && vs[n].kind == ts[n];
    if n > 0 {
      PartialEntry(r, ts, vs[..n], times[..n]);
    } else {
      assert calls[..0] == [];
    }
    assert vs[..n] + [vs[n]] == vs;
  }

  /** An unsigned column is never passed by typed writes. */
  lemma {:induction false} UnsignedBlocks(r: Record, ts: seq<ValueType>, calls: seq<Call>, i: nat)
    requires i < |ts| && ts[i] == UINT64 && |r.current.values| <= i
    requires forall c | c in calls :: !c.EntryCall?
    ensures Notes(r, ts, calls).done == r.done && |Notes(r, ts, calls).current.values| <= i
  {
    if calls != [] {
      UnsignedBlocks(r, ts, calls[..|calls| - 1], i);
      assert calls[|calls| - 1] in calls;
    }
  }

  /** Typed writers can complete an entry exactly when the group has no unsigned column, because the
      writer for unsigned values writes signed ones. */
  lemma {:induction false} TypedWritersComplete(ts: seq<ValueType>, r: Record)
    requires Usable(ts) && r.enabled && r.current.values == []
    ensures (exists calls: seq<Call> :: (forall c | c in calls :: !c.EntryCall?) && Notes(r, ts, calls).done != r.done)
      <==> UINT64 !in ts
  {
    if UINT64 in ts {
      var i :| 0 <= i < |ts| && ts[i] == UINT64;
      forall calls: seq<Call> | forall c | c in calls :: !c.EntryCall?
        ensures Notes(r, ts, calls).done == r.done
      {
        UnsignedBlocks(r, ts, calls, i);
      }
    } else {
      var vs := seq(|ts|, i requires 0 <= i < |ts| => Datum(ts[i], 0));
      var times := seq(|ts|, _ => Timestamp(0, 0));
      assert OfTypes(vs, ts) by {
        forall i | 0 <= i < |ts| ensures vs[i].Valid() {
          assert ts[i] in ts;
          PowerPositive(TypeLength(ts[i]));
        }
      }
      ValuesMakeEntry(r, ts, vs, times);
      var calls := ValueCalls(vs, times);
      OnlyValues(vs, times);
      assert |Notes(r, ts, calls).done| == |r.done| + 1;
    }
  }

  lemma {:induction false} PowerPositive(n: nat)
    ensures Power256(n) > 0
  {
    if n > 0 { PowerPositive(n - 1); }
  }

  lemma {:induction false} OnlyValues(vs: seq<Datum>, times: seq<Timestamp>)
    requires |vs| == |times|
    ensures forall c | c in ValueCalls(vs, times) :: c.ValueCall?
  {
    if vs != [] {
      OnlyValues(vs[..|vs| - 1], times[..|vs| - 1]);
    }
  }

  /** An accepted entry is counted; it reaches the file exactly when it has bytes. An empty one stays in
      the buffer and from then on every entry is refused. */
  lemma {:induction false} EmptyEntryBlocks(g: Group, bytes: string, now: Timestamp, next: Timestamp)
    requires Sound(g) && g.enabled && g.next == 0 && g.pending == ""
    requires PutEntry(g, bytes, now).1 == Done
    ensures var h := PutEntry(g, bytes, now).0;
      && h.count == g.count + 1
      && (bytes != "" ==> h.pending == "" && h.file == g.file + now.Bytes() + bytes)
      && (bytes == "" ==> h.file == g.file && PutEntry(h, bytes, next) == (h, Failed(EntryState)))
  {
    var p := g.(pending := now.Bytes() + bytes, count := g.count + 1);
    FlushMeans(p);
    assert g.file + (now.Bytes() + bytes) == g.file + now.Bytes() + bytes;
  }

  // ---- The group as the library keeps it ----

  class StatsGroup {
    const file: OutputFile
    const valueTypes: array<ValueType>
    var buffer: array<char>
    var offset: nat
    var nextValueIdx: nat
    var entryLength: nat
    var hasString: bool
    var numEntries: nat
    var isCommitted: bool
    var isEnabled: bool
    var running: bool
    /** The registered types; the group itself forgets how many there are when it is committed. */
    ghost var types: seq<ValueType>

    ghost predicate Valid()
      reads this, buffer, valueTypes
    {
      && offset <= buffer.Length == (if isCommitted then ENTRY_BUFFER else HEADER_BUFFER)
      && valueTypes.Length == MAX_VALUES
      && |types| <= MAX_VALUES
      && valueTypes[..|types|] == types
    }

    ghost function State(): Group
      requires Valid()
      reads this, buffer, valueTypes, file
    {
      Group(types, entryLength, hasString, nextValueIdx, buffer[..offset], numEntries,
            isCommitted, isEnabled, running, file.content, file.env)
    }

    constructor (env: seq<Outcome>)
      ensures Valid() && Sound(State()) && fresh(buffer) && fresh(valueTypes) && fresh(file)
      ensures var g := State();
        && g == Group([], 0, false, 0, g.pending, 0, false, false, true, "", env)
        && |g.pending| == HEADER_DIGITS + 1 && g.pending[HEADER_DIGITS] == '\n'
    {
      file := new OutputFile(env);
      valueTypes := new ValueType[MAX_VALUES];
      buffer := new char[HEADER_BUFFER];
      offset, nextValueIdx, entryLength, hasString, numEntries := HEADER_DIGITS, 0, 0, false, 0;
      isCommitted, isEnabled, running := false, false, true;
      types := [];
      new;
      buffer[offset] := '\n';
      offset := offset + 1;
    }

    /** Text that does not fit is cut off behind the used part of the buffer and refused. */
    method AppendFormat(text: string) returns (ok: bool)
      requires Valid() && offset < buffer.Length
      modifies this`offset, buffer
      ensures Valid() && offset < buffer.Length
      ensures (State(), ok) == Append(old(State()), text)
    {
      ghost var pending := buffer[..offset];
      var room := buffer.Length - offset;
      var n := if |text| < room then |text| else room - 1;
      forall i | 0 <= i < n {
        buffer[offset + i] := text[i];
      }
      buffer[offset + n] := '\0';
      assert buffer[..offset] == pending;
      if |text| >= room {
        return false;
      }
      offset := offset + |text|;
      assert buffer[..offset] == pending + text;
      return true;
    }

    /** Text that is taken whole or refused. */
    method AppendText(text: string) returns (ok: bool)
      requires Valid() && offset < buffer.Length
      modifies this`offset, buffer
      ensures Valid() && offset < buffer.Length
      ensures Taken(old(State()), State(), ok, text)
    {
      ok := AppendFormat(text);
    }

    method AppendIndent(n: nat) returns (ok: bool)
      requires Valid() && offset < buffer.Length
      modifies this`offset, buffer
      ensures Valid() && offset < buffer.Length
      ensures Taken(old(State()), State(), ok, Indents(n))
    {
      hide Taken;
      ghost var g := State();
      NothingTaken(g);
      for i := 0 to n
        invariant Valid() && offset < buffer.Length
        invariant Taken(g, State(), true, Indents(i))
      {
        ghost var h := State();
        ok := AppendText(INDENT);
        TakenBoth(g, h, State(), Indents(i), INDENT, ok);
        IndentsSplit(i, n);
        if !ok {
          TooLong(g, State(), Indents(i + 1), Indents(n - i - 1));
          return;
        }
      }
      return true;
    }

    /** An indented line. */
    method AppendLine(n: nat, text: string) returns (ok: bool)
      requires Valid() && offset < buffer.Length
      modifies this`offset, buffer
      ensures Valid() && offset < buffer.Length
      ensures Taken(old(State()), State(), ok, Indents(n) + text)
    {
      hide Taken;
      ghost var g := State();
      ok := AppendIndent(n);
      if !ok {
        TooLong(g, State(), Indents(n), text);
        return;
      }
      ghost var h := State();
      ok := AppendText(text);
      TakenBoth(g, h, State(), Indents(n), text, ok);
    }

    /** The labels, each inside the one before. */
    method AppendLabels(labels: seq<string>) returns (ok: bool)
      requires Valid() && offset < buffer.Length && labels != []
      modifies this`offset, buffer
      ensures Valid() && offset < buffer.Length
      ensures Taken(old(State()), State(), ok, LabelsFrom(labels, 0))
    {
      hide Taken;
      ghost var g := State();
      NothingTaken(g);
      var n := |labels|;
      assert LabelsUpTo(labels, 0) == "";
      for i := 1 to n
        invariant Valid() && offset < buffer.Length
        invariant Taken(g, State(), true, LabelsUpTo(labels, i - 1))
      {
        ghost var h := State();
        ok := AppendLine(i, "<Label value=\"" + labels[i - 1] + "\">\n");
        TakenBoth(g, h, State(), LabelsUpTo(labels, i - 1), Indents(i) + ("<Label value=\"" + labels[i - 1] + "\">\n"), ok);
        if !ok {
          LabelsAtOnce(labels, i);
          TooLong(g, State(), LabelsUpTo(labels, i), LabelsFrom(labels, i));
          return;
        }
      }
      ghost var h := State();
      ok := AppendLine(n, "<Label value=\"" + labels[n - 1] + "\" />\n");
      TakenBoth(g, h, State(), LabelsUpTo(labels, n - 1), LabelsFrom(labels, n - 1), ok);
      LabelsAtOnce(labels, n - 1);
    }

    /** The ends of all labels but the innermost. */
    method AppendLabelEnds(n: nat) returns (ok: bool)
      requires Valid() && offset < buffer.Length
      modifies this`offset, buffer
      ensures Valid() && offset < buffer.Length
      ensures Taken(old(State()), State(), ok, LabelEnds(n))
    {
      hide Taken, Indents;
      ghost var g := State();
      ghost var done := "";
      NothingTaken(g);
      var i := n;
      assert done + LabelEnds(n) == LabelEnds(n);
      while i >= 1
        invariant 0 <= i <= n && Valid() && offset < buffer.Length
        invariant Taken(g, State(), true, done) && done + LabelEnds(i) == LabelEnds(n)
      {
        ghost var h := State();
        ok := AppendLine(i, "</Label>\n");
        TakenBoth(g, h, State(), done, Indents(i) + "</Label>\n", ok);
        EndsMore(done, i);
        done := done + (Indents(i) + "</Label>\n");
        i := i - 1;
        if !ok {
          TooLong(g, State(), done, LabelEnds(i));
          return;
        }
      }
      assert LabelEnds(0) == "" && done + "" == done;
      return true;
    }

    /** The path to the group's node. */
    method AppendTopology(labels: seq<string>) returns (ok: bool)
      requires Valid() && offset < buffer.Length && labels != []
      modifies this`offset, buffer
      ensures Valid() && offset < buffer.Length
      ensures Taken(old(State()), State(), ok, Topology(labels))
    {
      hide Taken, LabelsFrom, LabelEnds;
      ghost var g := State();
      var a, b := "<TopologyNode>\n", "</TopologyNode>\n";
      ghost var p, q := LabelsFrom(labels, 0), LabelEnds(|labels| - 1);
      ok := AppendText(a);
      if !ok {
        TooLong(g, State(), a, p + q + b);
        assert a + (p + q + b) == Topology(labels);
        return;
      }
      ghost var h := State();
      ok := AppendLabels(labels);
      TakenBoth(g, h, State(), a, p, ok);
      if !ok {
        TooLong(g, State(), a + p, q + b);
        assert a + p + (q + b) == Topology(labels);
        return;
      }
      h := State();
      ok := AppendLabelEnds(|labels| - 1);
      TakenBoth(g, h, State(), a + p, q, ok);
      if !ok {
        TooLong(g, State(), a + p + q, b);
        return;
      }
      h := State();
      ok := AppendText(b);
      TakenBoth(g, h, State(), a + p + q, b, ok);
    }

    /** Writes the beginning of the header: all of it fits, or creating the group fails. */
    method OpenHeader(labels: seq<string>, group: string) returns (ok: bool)
      requires Valid() && offset < buffer.Length && labels != []
      modifies this`offset, buffer
      ensures Valid() && offset < buffer.Length
      ensures Taken(old(State()), State(), ok, Opening(labels, group))
    {
      hide Taken, Topology, GroupTag;
      ghost var g := State();
      ghost var t, u := Topology(labels), GroupTag(group);
      var a := "<Statistics>\n";
      ok := AppendText(a);
      if !ok {
        TooLong(g, State(), a, t + u);
        assert a + (t + u) == Opening(labels, group);
        return;
      }
      ghost var h := State();
      ok := AppendTopology(labels);
      TakenBoth(g, h, State(), a, t, ok);
      if !ok {
        TooLong(g, State(), a + t, u);
        return;
      }
      h := State();
      ok := AppendText(GroupTag(group));
      TakenBoth(g, h, State(), a + t, u, ok);
    }

    /** Creates a group with the beginning of its header, unless the group has no name or that does not fit. */
    static method Create(labels: seq<string>, group: string, env: seq<Outcome>) returns (g: StatsGroup?)
      requires labels != []
      ensures g == null <==> group == "" || HEADER_DIGITS + 1 + |Opening(labels, group)| >= HEADER_BUFFER
      ensures g != null ==> fresh(g) && fresh(g.buffer) && fresh(g.valueTypes) && fresh(g.file)
      ensures g != null ==>
        && g.Valid() && Sound(g.State()) && Building(g.State()) && Header(g.State()) == Opening(labels, group)
        && g.State().types == [] && g.State().file == "" && g.State().env == env && !g.State().enabled
    {
      hide Opening;
      if group == "" {
        return null;
      }
      g := new StatsGroup(env);
      ghost var before := g.State();
      var ok := g.OpenHeader(labels, group);
      if !ok {
        return null;
      }
      assert g.State().pending == before.pending + Opening(labels, group);
    }

    method AppendPieces(pieces: seq<string>) returns (ok: bool)
      requires Valid() && offset < buffer.Length
      modifies this`offset, buffer
      ensures Valid() && offset < buffer.Length
      ensures (State(), ok) == AppendAll(old(State()), pieces)
    {
      for i := 0 to |pieces|
        invariant Valid() && offset < buffer.Length
        invariant AppendAll(State(), pieces[i..]) == AppendAll(old(State()), pieces)
      {
        ghost var before := State();
        assert pieces[i..][0] == pieces[i] && pieces[i..][1..] == pieces[i + 1..];
        ok := AppendFormat(pieces[i]);
        if !ok {
          return;
        }
      }
      return true;
    }

    method RegisterType(t: ValueType)
      requires Valid() && Building(State()) && nextValueIdx < MAX_VALUES
      modifies this, valueTypes
      ensures Valid() && buffer == old(buffer) && State() == WithType(old(State()), t)
    {
      valueTypes[nextValueIdx] := t;
      if !hasString {
        var valueLength := TypeLength(t);
        if valueLength > 0 {
          entryLength := entryLength + valueLength;
        } else {
          hasString := true;
        }
      }
      types := types + [t];
      nextValueIdx := nextValueIdx + 1;
    }

    method AddValue(name: string, t: ValueType, unit: Option<string>, grouping: Option<string>) returns (r: Result)
      requires Valid() && Sound(State())
      modifies this, buffer, valueTypes
      ensures Valid() && Sound(State()) && buffer == old(buffer)
      ensures (State(), r) == RegisterColumn(old(State()), Column(name, t, unit, grouping))
    {
      if name == "" || unit == Some("") || grouping == Some("") {
        return Failed(GroupError.InvalidArgument);
      }
      var tag := Tag(Column(name, t, unit, grouping));
      RegisterKeeps(State(), t, tag);
      if nextValueIdx >= MAX_VALUES {
        return Failed(BufferOverflow);
      }
      if isCommitted {
        return Failed(CommitState);
      }
      RegisterType(t);
      var ok := AppendPieces([INDENT, tag]);
      return if ok then Done else Failed(BufferOverflow);
    }

    method FlushGroupBuffer()
      requires Valid() && running
      modifies this`offset, this`running, file
      ensures Valid() && State() == FlushGroup(old(State()))
    {
      var status := file.WriteToFile(buffer, offset);
      if status.Err? {
        running := false;
        return;
      }
      offset := 0;
    }

    method CopyIn(bytes: string)
      requires Valid() && offset + |bytes| <= buffer.Length
      modifies this`offset, buffer
      ensures Valid() && State() == old(State()).(pending := old(State()).pending + bytes)
      ensures offset == old(offset) + |bytes|
    {
      ghost var pending := buffer[..offset];
      forall i | 0 <= i < |bytes| {
        buffer[offset + i] := bytes[i];
      }
      offset := offset + |bytes|;
      assert buffer[..offset] == pending + bytes;
    }

    /** Prints the length into the room in front of the header; the terminator falls on the newline. */
    method WriteLength()
      requires Valid() && HEADER_DIGITS < offset
      modifies buffer
      ensures Valid() && State() == old(State()).(pending := WithLength(old(State()).pending))
    {
      ghost var pending := buffer[..offset];
      var field := Padded(offset - HEADER_DIGITS - 1, HEADER_DIGITS);
      var n := if |field| < HEADER_DIGITS then |field| else HEADER_DIGITS;
      assert n == HEADER_DIGITS;
      forall i | 0 <= i < n {
        buffer[i] := field[i];
      }
      buffer[n] := '\0';
      buffer[HEADER_DIGITS] := '\n';
      assert buffer[..offset] == field[..n] + "\n" + pending[HEADER_DIGITS + 1..];
    }

    method CommitGroup(now: Timestamp) returns (r: Result)
      requires Valid() && Sound(State()) && entryLength + 8 <= ENTRY_BUFFER
      modifies this, buffer, file
      ensures Valid() && (buffer == old(buffer) || fresh(buffer))
      ensures (State(), r) == Commit(old(State()), now)
    {
      hide FlushGroup, Timestamp.Bytes, Fixed, Lengths, WithLength, AppendAll;
      if isCommitted {
        return Failed(CommitState);
      }
      ghost var g := State();
      AppendAllKeeps(g, CLOSING);
      var ok := AppendPieces(CLOSING);
      if !ok {
        return Failed(BufferOverflow);
      }
      WriteLength();
      FlushGroupBuffer();
      if !running {
        return Failed(Aborted);
      }
      StartEntries(now);
      return if running then Done else Failed(Aborted);
    }

    /** Replaces the header's buffer by the one for entries and writes the start time. */
    method StartEntries(now: Timestamp)
      requires Valid() && running && !isCommitted
      modifies this
      modifies file
      ensures Valid() && fresh(buffer)
      ensures State() == FlushGroup(old(State()).(pending := now.Bytes(), next := 0, count := 0, committed := true))
    {
      hide FlushGroup, Timestamp.Bytes;
      buffer := new char[ENTRY_BUFFER];
      offset, nextValueIdx, numEntries, isCommitted := 0, 0, 0, true;
      CopyIn(now.Bytes());
      assert buffer[..0] + now.Bytes() == now.Bytes();
      FlushGroupBuffer();
    }

    method EnableGroup() returns (code: int)
      requires Valid()
      modifies this`isEnabled
      ensures Valid() && State() == Enable(old(State()))
      ensures code == if !isCommitted then -1 else if old(isEnabled) then 1 else 0
    {
      if !isCommitted {
        return -1;
      }
      if isEnabled {
        return 1;
      }
      isEnabled := true;
      return 0;
    }

    method DisableGroup() returns (code: int)
      requires Valid()
      modifies this`isEnabled
      ensures Valid() && State() == Disable(old(State()))
      ensures code == if !isCommitted then -1 else if old(isEnabled) then 0 else 1
    {
      if !isCommitted {
        return -1;
      }
      if !isEnabled {
        return 1;
      }
      isEnabled := false;
      return 0;
    }

    /** The common part of the typed writers. A group without values has no next type to compare with. */
    method AppendValueToGroupBuffer(t: ValueType, bytes: string, now: Timestamp) returns (r: Result)
      requires Valid() && Ready(State())
      requires t != STRING && |bytes| == TypeLength(t)
      modifies this, buffer, file
      ensures Valid() && buffer == old(buffer) && (running ==> Sound(State()))
      ensures (State(), r) == AppendValue(old(State()), t, bytes, now)
    {
      hide Timestamp.Bytes, Extended, Fixed, Lengths;
      if !isEnabled {
        return Failed(Disabled);
      }
      if !isCommitted {
        return Failed(CommitState);
      }
      assert valueTypes[nextValueIdx] == types[nextValueIdx];
      if valueTypes[nextValueIdx] != t {
        return Failed(EntryState);
      }
      ghost var g := State();
      ValueFits(g);
      if !((nextValueIdx == 0 && offset == 0) || (nextValueIdx != 0 && offset != 0)) {
        running := false;
        return Failed(Aborted);
      }
      AppendKeepsSound(g, t, bytes, now);
      if nextValueIdx == 0 {
        CopyIn(now.Bytes());
      }
      assert buffer[..offset] == if g.next == 0 then now.Bytes() else g.pending;
      r := ExtendEntry(bytes);
    }

    method ExtendEntry(bytes: string) returns (r: Result)
      requires Valid() && running && offset + |bytes| <= buffer.Length
      modifies this`offset, this`running, this`nextValueIdx, this`numEntries, buffer, file
      ensures Valid() && (State(), r) == Extended(old(State()), bytes)
    {
      hide FlushGroup;
      CopyIn(bytes);
      nextValueIdx := nextValueIdx + 1;
      if offset == entryLength + 8 {
        FlushGroupBuffer();
        if !running {
          return Failed(Aborted);
        }
        numEntries := numEntries + 1;
        nextValueIdx := 0;
      }
      return Done;
    }

    method WriteValue(v: Datum, now: Timestamp) returns (r: Result)
      requires Valid() && Ready(State())
      requires v.kind != STRING
      modifies this, buffer, file
      ensures Valid() && buffer == old(buffer) && (running ==> Sound(State()))
      ensures (State(), r) == PutValue(old(State()), v, now)
    {
      r := AppendValueToGroupBuffer(Writes(v.kind), v.Bytes(), now);
    }

    /** The length is checked only when there is no string column; without that check the bytes must fit. */
    method WriteEntry(bytes: string, now: Timestamp) returns (r: Result)
      requires Valid() && Sound(State()) && (hasString ==> |bytes| + 8 <= ENTRY_BUFFER)
      modifies this, buffer, file
      ensures Valid() && buffer == old(buffer) && (running ==> Sound(State()))
      ensures (State(), r) == PutEntry(old(State()), bytes, now)
    {
      hide FlushGroup, Timestamp.Bytes, Fixed, Lengths;
      if !isEnabled {
        return Failed(Disabled);
      }
      if !isCommitted {
        return Failed(CommitState);
      }
      if !hasString && |bytes| != entryLength {
        return Failed(UnexpectedLength);
      }
      if offset != 0 || nextValueIdx != 0 {
        return Failed(EntryState);
      }
      assert buffer[..0] + now.Bytes() == now.Bytes();
      CopyIn(now.Bytes());
      numEntries := numEntries + 1;
      if bytes == "" {
        return Done;
      }
      CopyIn(bytes);
      FlushMeans(State());
      FlushGroupBuffer();
      return if running then Done else Failed(Aborted);
    }

    /** Closes the file, and deletes it when no entry was made. */
    method Finalize() returns (deleted: bool, r: Result)
      requires Valid() && Sound(State())
      ensures r == if isCommitted then Done else Failed(CommitState)
      ensures deleted <==> isCommitted && numEntries == 0
      ensures FinalFile(State()) == if deleted then None else Some(file.content)
    {
      if !isCommitted {
        return false, Failed(CommitState);
      }
      return numEntries == 0, Done;
    }
  }
}
