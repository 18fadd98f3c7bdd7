/** Power traces: the script that asks the device for every trace's values, and the way its one answer is
    dealt out to the traces. */
module PowerTraces {
  import opened Basics
  import opened Decimals
  import opened Fields
  import opened StatsFormat
  import Groups = StatsGroups
  import Headers = StatsHeaders

  datatype Kind = HdStats | Ascii

  /** A trace: the device's channel, and which of voltage, current and power to record. */
  datatype Trace = Trace(kind: Kind, channel: nat, u: bool, i: bool, p: bool) {
    function Count(): nat { (if u then 1 else 0) + (if i then 1 else 0) + (if p then 1 else 0) }
  }

  function Query(name: string, channel: nat): string { name + Natural(channel) + "?" }

  /** What the device is asked for a trace, in order. */
  function Queries(t: Trace): (qs: seq<string>)
    ensures |qs| == t.Count()
  {
    When(t.u, [Query("UTRMS", t.channel)]) + When(t.i, [Query("ITRMS", t.channel)]) + When(t.p, [Query("P", t.channel)])
  }

  function AllQueries(ts: seq<Trace>): seq<string>
  {
    if ts == [] then [] else AllQueries(ts[..|ts| - 1]) + Queries(ts[|ts| - 1])
  }

  /** The columns of a trace's statistics group. */
  function Columns(t: Trace): (cs: seq<Headers.Column>)
    ensures |cs| == t.Count()
  {
    When(t.u, [Headers.Column("Utrms", FLOAT, Some("V"), Some("Voltage"))])
    + When(t.i, [Headers.Column("Itrms", FLOAT, Some("A"), Some("Current"))])
    + When(t.p, [Headers.Column("P", FLOAT, Some("W"), Some("Power"))])
  }

  /** Their types. */
  function Types(t: Trace): (ts: seq<ValueType>)
    ensures |ts| == t.Count()
  {
    seq(t.Count(), i requires 0 <= i < t.Count() => Columns(t)[i].kind)
  }

  /** The columns in the order in which the program registers them. */
  method RegisterColumns(t: Trace) returns (cs: seq<Headers.Column>)
    ensures cs == Columns(t)
  {
    cs := [];
    if t.u {
      cs := cs + [Headers.Column("Utrms", FLOAT, Some("V"), Some("Voltage"))];
    }
    if t.i {
      cs := cs + [Headers.Column("Itrms", FLOAT, Some("A"), Some("Current"))];
    }
    if t.p {
      cs := cs + [Headers.Column("P", FLOAT, Some("W"), Some("Power"))];
    }
  }

  /** What the device has to be asked for a column, by the column's name, in what unit it answers, and what
      that measures. */
  function QueryFor(name: string, channel: nat): Option<(string, string, string)> {
    if name == "Utrms" then Some(("UTRMS" + Natural(channel) + "?", "V", "Voltage"))
    else if name == "Itrms" then Some(("ITRMS" + Natural(channel) + "?", "A", "Current"))
    else if name == "P" then Some(("P" + Natural(channel) + "?", "W", "Power"))
    else None
  }

  /** Query and column belong together, place by place. */
  lemma {:induction false} ColumnsNameQueries(t: Trace, i: nat)
    requires i < t.Count()
    ensures var c := Columns(t)[i];
      && c.kind == FLOAT && c.unit.Some? && c.grouping.Some?
      && QueryFor(c.name, t.channel) == Some((Queries(t)[i], c.unit.value, c.grouping.value))
  {
    hide Natural;
  }

  /** The size of a trace's part of an answer, in binary and in text mode. */
  function Size(t: Trace, binary: bool): nat { if binary then 4 * t.Count() else 9 * t.Count() + 2 }

  function TotalSize(ts: seq<Trace>, binary: bool): nat {
    if ts == [] then 0 else TotalSize(ts[..|ts| - 1], binary) + Size(ts[|ts| - 1], binary)
  }

  predicate Asked(ts: seq<Trace>) { forall i | 0 <= i < |ts| :: ts[i].Count() > 0 }

  // ---- Building the script ----

  /** A trace's action and size, put together value by value; the last separator is taken off again. */
  method CreateAction(t: Trace, binary: bool) returns (action: string, size: nat)
    requires t.Count() > 0
    ensures action == Join(Queries(t), ';') && size == Size(t, binary)
  {
    hide Query, Ended, Join;
    action, size := "", 0;
    ghost var qs: seq<string> := [];
    EndedMore([], "", ';');
    if t.u {
      EndedMore(qs, Query("UTRMS", t.channel), ';');
      action := action + Query("UTRMS", t.channel) + ";";
      size := size + if binary then 4 else 9;
      qs := qs + [Query("UTRMS", t.channel)];
    }
    assert action == Ended(qs, ';') && qs == When(t.u, [Query("UTRMS", t.channel)]);
    if t.i {
      EndedMore(qs, Query("ITRMS", t.channel), ';');
      action := action + Query("ITRMS", t.channel) + ";";
      size := size + if binary then 4 else 9;
      qs := qs + [Query("ITRMS", t.channel)];
    }
    assert action == Ended(qs, ';') && qs == When(t.u, [Query("UTRMS", t.channel)]) + When(t.i, [Query("ITRMS", t.channel)]);
    if t.p {
      EndedMore(qs, Query("P", t.channel), ';');
      action := action + Query("P", t.channel) + ";";
      size := size + if binary then 4 else 9;
      qs := qs + [Query("P", t.channel)];
    }
    assert action == Ended(qs, ';') && qs == Queries(t);
    if !binary {
      size := size + 2;
    }
    EndedIsJoined(qs, ';');
    action := action[..|action| - 1];
  }

  lemma {:induction false} NoQueries(ts: seq<Trace>)
    ensures Join(["ACTN"] + AllQueries(ts[..0]), ';') == "ACTN"
  {
    assert ["ACTN"] + AllQueries(ts[..0]) == ["ACTN"];
  }

  lemma {:induction false} OneTraceMore(ts: seq<Trace>, n: nat)
    requires n < |ts| && ts[n].Count() > 0
    ensures Join(["ACTN"] + AllQueries(ts[..n + 1]), ';')
      == Join(["ACTN"] + AllQueries(ts[..n]), ';') + ";" + Join(Queries(ts[n]), ';')
  {
    hide Join, Queries;
    assert ts[..n + 1][..n] == ts[..n];
    JoinAppend(["ACTN"] + AllQueries(ts[..n]), Queries(ts[n]), ';');
    assert ["ACTN"] + AllQueries(ts[..n]) + Queries(ts[n]) == ["ACTN"] + AllQueries(ts[..n + 1]);
  }

  /** The action script for all traces. */
  method ProgramAction(ts: seq<Trace>) returns (script: string)
    requires Asked(ts)
    ensures script == Join(["ACTN"] + AllQueries(ts), ';')
  {
    hide Join, AllQueries;
    script := "ACTN";
    NoQueries(ts);
    for n := 0 to |ts|
      invariant script == Join(["ACTN"] + AllQueries(ts[..n]), ';')
    {
      var action, _ := CreateAction(ts[n], true);
      OneTraceMore(ts, n);
      script := script + ";" + action;
    }
    assert ts[..|ts|] == ts;
  }

  lemma {:induction false} QueryWithout(name: string, channel: nat)
    requires Without(name, ';')
    ensures Without(Query(name, channel), ';')
  {
    var d := Natural(channel);
    forall i | 0 <= i < |d| ensures d[i] != ';' {
      assert d[i] in d;
    }
  }

  lemma {:induction false} QueriesWithout(ts: seq<Trace>)
    ensures AllWithout(AllQueries(ts), ';')
  {
    if ts != [] {
      QueriesWithout(ts[..|ts| - 1]);
      var t := ts[|ts| - 1];
      QueryWithout("UTRMS", t.channel);
      QueryWithout("ITRMS", t.channel);
      QueryWithout("P", t.channel);
    }
  }

  // ---- The device ----

  /** A device that answers each query of a script in turn with a word of four bytes. */
  type Meter = string -> string

  ghost predicate IsMeter(meter: Meter) { forall q :: |meter(q)| == 4 && IsBytes(meter(q)) }

  function Answer(meter: Meter, qs: seq<string>): string {
    if qs == [] then "" else Answer(meter, qs[..|qs| - 1]) + meter(qs[|qs| - 1])
  }

  /** The device takes the script apart again. */
  function Response(meter: Meter, script: string): string { Answer(meter, Split(script, ';')[1..]) }

  lemma {:induction false} AnswerAppend(meter: Meter, a: seq<string>, b: seq<string>)
    ensures Answer(meter, a + b) == Answer(meter, a) + Answer(meter, b)
  {
    if b == [] {
      assert a + b == a && Answer(meter, a) + "" == Answer(meter, a);
    } else {
      var n := |b| - 1;
      AnswerAppend(meter, a, b[..n]);
      assert (a + b)[..|a + b| - 1] == a + b[..n];
      assert Answer(meter, a) + Answer(meter, b[..n]) + meter(b[n]) == Answer(meter, a) + (Answer(meter, b[..n]) + meter(b[n]));
    }
  }

  lemma {:induction false} AnswerLength(meter: Meter, qs: seq<string>)
    requires IsMeter(meter)
    ensures |Answer(meter, qs)| == 4 * |qs| && IsBytes(Answer(meter, qs))
  {
    if qs != [] { AnswerLength(meter, qs[..|qs| - 1]); }
  }

  /** The device understands the script as the traces' queries in order. */
  lemma {:induction false} ScriptIsUnderstood(meter: Meter, ts: seq<Trace>)
    requires IsMeter(meter)
    ensures var r := Response(meter, Join(["ACTN"] + AllQueries(ts), ';'));
      r == Answer(meter, AllQueries(ts)) && |r| == TotalSize(ts, true)
  {
    QueriesWithout(ts);
    var fs := ["ACTN"] + AllQueries(ts);
    SplitJoin(fs, ';');
    assert fs[1..] == AllQueries(ts);
    AnswerLength(meter, AllQueries(ts));
    SizesAdd(ts);
  }

  lemma {:induction false} SizesAdd(ts: seq<Trace>)
    ensures TotalSize(ts, true) == 4 * |AllQueries(ts)|
  {
    if ts != [] { SizesAdd(ts[..|ts| - 1]); }
  }

  // ---- Byte order ----

  /** The place of a byte when its word of four is turned round. */
  function Mirror(i: nat): (m: nat)
    ensures 4 * (i / 4) <= m < 4 * (i / 4) + 4
  {
    4 * (i / 4) + 3 - i % 4
  }

  /** The first n words turned round. */
  function Swapped(s: string, n: nat): (r: string)
    requires 4 * n <= |s|
    ensures |r| == |s|
  {
    seq(|s|, i requires 0 <= i < |s| => if i < 4 * n then s[Mirror(i)] else s[i])
  }

  lemma {:induction false} MirrorInWord(j: nat, k: nat)
    requires k < 4
    ensures Mirror(4 * j + k) == 4 * j + 3 - k
  {
  }

  lemma {:induction false} SwapOneWord(s: string, r: string, t: string, j: nat)
    requires var a := 4 * j;
      && a + 4 <= |s| == |t| && r == Swapped(s, j)
      && t[..a] == r[..a] && t[a + 4..] == r[a + 4..]
      && t[a] == r[a + 3] && t[a + 1] == r[a + 2] && t[a + 2] == r[a + 1] && t[a + 3] == r[a]
    ensures t == Swapped(s, j + 1)
  {
    hide Mirror;
    var a := 4 * j;
    var u := Swapped(s, j + 1);
    MirrorInWord(j, 0);
    MirrorInWord(j, 1);
    MirrorInWord(j, 2);
    MirrorInWord(j, 3);
    forall i | 0 <= i < |s| ensures t[i] == u[i] {
      if i < a {
        assert t[..a][i] == r[..a][i];
      } else if i >= a + 4 {
        assert t[a + 4..][i - a - 4] == r[a + 4..][i - a - 4];
      }
    }
  }

  /** Turns the words of a part of the buffer round, in place. */
  method OrderWords(buffer: array<char>, at: nat, words: nat)
    requires at + 4 * words <= buffer.Length
    modifies buffer
    ensures buffer[at..at + 4 * words] == Swapped(old(buffer[at..at + 4 * words]), words)
    ensures forall i | 0 <= i < buffer.Length && !(at <= i < at + 4 * words) :: buffer[i] == old(buffer[i])
  {
    hide Swapped;
    ghost var s, m := buffer[at..at + 4 * words], at + 4 * words;
    SwappedNone(s);
    for j := 0 to words
      invariant buffer[at..m] == Swapped(s, j)
      invariant forall i | 0 <= i < buffer.Length && !(at <= i < m) :: buffer[i] == old(buffer[i])
    {
      ghost var r := buffer[at..m];
      OrderBytes(buffer, at, at + 4 * j, m);
      SwapOneWord(s, r, buffer[at..m], j);
    }
  }

  method OrderBytes(buffer: array<char>, ghost at: nat, a: nat, ghost m: nat)
    requires at <= a && a + 4 <= m <= buffer.Length
    modifies buffer
    ensures var r, t, k := old(buffer[at..m]), buffer[at..m], a - at;
      && t[..k] == r[..k] && t[k + 4..] == r[k + 4..]
      && t[k] == r[k + 3] && t[k + 1] == r[k + 2] && t[k + 2] == r[k + 1] && t[k + 3] == r[k]
    ensures forall i | 0 <= i < buffer.Length && !(at <= i < m) :: buffer[i] == old(buffer[i])
  {
    buffer[a], buffer[a + 1], buffer[a + 2], buffer[a + 3] := buffer[a + 3], buffer[a + 2], buffer[a + 1], buffer[a];
  }

  lemma {:induction false} SwappedNone(s: string)
    ensures Swapped(s, 0) == s
  {
  }

  function Swap(s: string): (r: string)
    requires |s| % 4 == 0
    ensures |r| == |s|
  {
    Swapped(s, |s| / 4)
  }

  lemma {:induction false} SwapIs(s: string, n: nat)
    requires |s| == 4 * n
    ensures Swap(s) == Swapped(s, n)
  {
  }

  /** Turning round word by word. */
  lemma {:induction false} SwapAppend(a: string, b: string)
    requires |a| % 4 == 0 && |b| == 4
    ensures Swap(a + b) == Swap(a) + Swap(b)
  {
    hide Mirror;
    var n := |a| / 4;
    SwapIs(a, n);
    SwapIs(b, 1);
    SwapIs(a + b, n + 1);
    hide Swap;
    forall i | 0 <= i < |a + b| ensures Swapped(a + b, n + 1)[i] == (Swapped(a, n) + Swapped(b, 1))[i] {
      if i < |a| {
        assert Mirror(i) < |a|;
      } else {
        MirrorInWord(n, i - |a|);
        MirrorInWord(0, i - |a|);
      }
    }
  }

  /** What a column of the group holds: the device sends the low byte first. */
  function LittleEndian(w: string): nat
    requires |w| == 4
  {
    FromBigEndian(Swap(w))
  }

  function Readings(meter: Meter, qs: seq<string>): seq<Datum>
    requires forall q :: |meter(q)| == 4
  {
    if qs == [] then [] else Readings(meter, qs[..|qs| - 1]) + [Datum(FLOAT, LittleEndian(meter(qs[|qs| - 1])))]
  }

  function Floats(n: nat): seq<ValueType> { if n == 0 then [] else Floats(n - 1) + [FLOAT] }

  lemma {:induction false} FloatsLength(n: nat)
    ensures |Floats(n)| == n && Lengths(Floats(n)) == 4 * n && forall t | t in Floats(n) :: t == FLOAT
  {
    if n > 0 {
      FloatsLength(n - 1);
      assert Floats(n)[..n - 1] == Floats(n - 1);
    }
  }

  lemma {:induction false} LastReading(a: string, w: string, n: nat)
    requires |a| == 4 * n == Lengths(Floats(n)) && |w| == 4 && Lengths(Floats(n + 1)) == 4 * n + 4
    requires |Floats(n)| == n
    ensures ReadValues(Swap(a + w), Floats(n + 1)) == ReadValues(Swap(a), Floats(n)) + [Datum(FLOAT, LittleEndian(w))]
  {
    SwapAppend(a, w);
    hide Swap, FromBigEndian, Lengths;
    assert Floats(n + 1)[..n] == Floats(n);
    assert (Swap(a) + Swap(w))[..4 * n] == Swap(a) && (Swap(a) + Swap(w))[4 * n..] == Swap(w);
  }

  /** Turned round, the answers to some queries are the bytes of exactly these readings. */
  lemma {:induction false} AnswersAreReadings(meter: Meter, qs: seq<string>)
    requires IsMeter(meter)
    ensures |Answer(meter, qs)| == 4 * |qs| == Lengths(Floats(|qs|))
    ensures ReadValues(Swap(Answer(meter, qs)), Floats(|qs|)) == Readings(meter, qs)
  {
    hide Swap, LittleEndian, ReadValues, Lengths, Floats;
    AnswerLength(meter, qs);
    FloatsLength(|qs|);
    if qs != [] {
      var n := |qs| - 1;
      AnswersAreReadings(meter, qs[..n]);
      FloatsLength(n);
      LastReading(Answer(meter, qs[..n]), meter(qs[n]), n);
    } else {
      NoReadings();
    }
  }

  lemma {:induction false} NoReadings()
    ensures Lengths(Floats(0)) == 0 && ReadValues(Swap(""), Floats(0)) == []
  {
  }

  // ---- Dealing the answer out ----

  predicate OnlyStats(ts: seq<Trace>) { forall i | 0 <= i < |ts| :: ts[i].kind == HdStats }

  /** Where the part of trace i begins. */
  function Start(ts: seq<Trace>, i: nat): nat
    requires i <= |ts|
  {
    TotalSize(ts[..i], true)
  }

  lemma {:induction false} Starts(ts: seq<Trace>, i: nat, j: nat)
    requires i < j <= |ts|
    ensures Start(ts, i) + 4 * ts[i].Count() <= Start(ts, j)
    ensures Start(ts, i + 1) == Start(ts, i) + 4 * ts[i].Count()
    decreases j
  {
    assert ts[..i + 1][..i] == ts[..i];
    if i + 1 < j {
      assert ts[..j][..j - 1] == ts[..j - 1];
      Starts(ts, i, j - 1);
    }
  }

  /** The part of trace i, with its words turned round. */
  function Part(s: string, ts: seq<Trace>, i: nat): (p: string)
    requires i < |ts| && |s| == TotalSize(ts, true)
    ensures |p| == 4 * ts[i].Count()
  {
    assert ts[..|ts|] == ts;
    Starts(ts, i, |ts|);
    Swap(s[Start(ts, i)..Start(ts, i) + 4 * ts[i].Count()])
  }

  lemma {:induction false} PartIs(s: string, ts: seq<Trace>, i: nat)
    requires i < |ts| && |s| == TotalSize(ts, true)
    ensures var a, n := Start(ts, i), ts[i].Count();
      && a + 4 * n <= |s| && Start(ts, i + 1) == a + 4 * n && Part(s, ts, i) == Swapped(s[a..a + 4 * n], n)
  {
    assert ts[..|ts|] == ts;
    Starts(ts, i, |ts|);
  }

  /** Writes each trace's part of the buffer to its group: returned is what each group is given. */
  method TraceIteration(buffer: array<char>, ts: seq<Trace>) returns (entries: seq<string>)
    requires OnlyStats(ts) && buffer.Length == TotalSize(ts, true)
    modifies buffer
    ensures |entries| == |ts|
    ensures forall i | 0 <= i < |ts| :: entries[i] == Part(old(buffer[..]), ts, i)
  {
    assert ts[..0] == [] && Start(ts, 0) == 0;
    hide Swapped, TotalSize, Part, Start;
    entries := [];
    var at := 0;
    ghost var whole := buffer[..];
    for n := 0 to |ts|
      invariant at == Start(ts, n) && |entries| == n && at <= buffer.Length
      invariant forall i | at <= i < buffer.Length :: buffer[i] == whole[i]
      invariant forall i | 0 <= i < n :: entries[i] == Part(whole, ts, i)
    {
      PartIs(whole, ts, n);
      var words := ts[n].Count();
      assert buffer[at..at + 4 * words] == whole[at..at + 4 * words];
      OrderWords(buffer, at, words);
      entries := entries + [buffer[at..at + 4 * words]];
      at := at + 4 * words;
    }
  }

  lemma {:induction false} InFront(x: string, y: string, a: nat, b: nat)
    requires a <= b <= |x|
    ensures (x + y)[a..b] == x[a..b] && (x + y)[|x|..|x| + |y|] == y
  {
  }

  /** The part of the answer for trace i is exactly the answer to its own queries. */
  lemma {:induction false} PartOfAnswer(meter: Meter, ts: seq<Trace>, i: nat)
    requires IsMeter(meter) && i < |ts|
    ensures var r, a := Answer(meter, AllQueries(ts)), Start(ts, i);
      && a + 4 * ts[i].Count() <= |r| && r[a..a + 4 * ts[i].Count()] == Answer(meter, Queries(ts[i]))
    decreases |ts|
  {
    hide Queries, Answer, TotalSize, IsMeter;
    var n := |ts| - 1;
    var before, last := AllQueries(ts[..n]), Queries(ts[n]);
    var x, y := Answer(meter, before), Answer(meter, last);
    AnswerAppend(meter, before, last);
    AnswerLength(meter, before);
    AnswerLength(meter, last);
    SizesAdd(ts[..n]);
    if i < n {
      PartOfAnswer(meter, ts[..n], i);
      assert ts[..n][..i] == ts[..i] && ts[..n][i] == ts[i];
      InFront(x, y, Start(ts, i), Start(ts, i) + 4 * ts[i].Count());
    } else {
      InFront(x, y, 0, 0);
    }
  }

  lemma {:induction false} ColumnsAreFloats(t: Trace)
    ensures Types(t) == Floats(t.Count())
  {
    assert Floats(1) == [FLOAT] && Floats(2) == [FLOAT, FLOAT] && Floats(3) == [FLOAT, FLOAT, FLOAT];
    assert Floats(0) == [];
  }

  /** From the script to the entries: what the device answers to the script that was sent is dealt out so
      that each trace gets an entry of exactly its group's length, and a reader of the group finds the
      device's readings for the trace's own channel, in the order of its columns. */
  lemma {:induction false} EachTraceGetsItsReadings(meter: Meter, ts: seq<Trace>, i: nat)
    requires IsMeter(meter) && i < |ts|
    ensures var r := Response(meter, Join(["ACTN"] + AllQueries(ts), ';'));
      && |r| == TotalSize(ts, true)
      && |Part(r, ts, i)| == Lengths(Types(ts[i]))
      && ReadValues(Part(r, ts, i), Types(ts[i])) == Readings(meter, Queries(ts[i]))
  {
    hide Swap, Queries, Response, Start, TotalSize, ReadValues, Readings, Floats, Columns, Types, Answer, AllQueries, IsMeter, Join;
    ScriptIsUnderstood(meter, ts);
    PartOfAnswer(meter, ts, i);
    AnswersAreReadings(meter, Queries(ts[i]));
    ColumnsAreFloats(ts[i]);
    FloatsLength(ts[i].Count());
  }

  lemma {:induction false} ReadingAt(meter: Meter, qs: seq<string>, k: nat)
    requires IsMeter(meter) && k < |qs|
    ensures |Readings(meter, qs)| == |qs| && Readings(meter, qs)[k] == Datum(FLOAT, LittleEndian(meter(qs[k])))
  {
    hide LittleEndian;
    var n := |qs| - 1;
    if n > 0 {
      ReadingAt(meter, qs[..n], if k < n then k else 0);
    }
  }

  /** Each value of the entry is the device's answer to the query for the column's name and the trace's
      channel, with its bytes in the device's order, low byte first. */
  lemma {:induction false} ColumnHoldsAnswer(meter: Meter, ts: seq<Trace>, i: nat, k: nat)
    requires IsMeter(meter) && i < |ts| && k < ts[i].Count()
    ensures var r, c := Response(meter, Join(["ACTN"] + AllQueries(ts), ';')), Columns(ts[i])[k];
      && |r| == TotalSize(ts, true) && |Part(r, ts, i)| == Lengths(Types(ts[i])) && QueryFor(c.name, ts[i].channel).Some?
      && var w := meter(QueryFor(c.name, ts[i].channel).value.0);
         |w| == 4 && k < |ReadValues(Part(r, ts, i), Types(ts[i]))|
         && ReadValues(Part(r, ts, i), Types(ts[i]))[k]
              == Datum(FLOAT, w[0] as nat + 256 * w[1] as nat + 65536 * w[2] as nat + 16777216 * w[3] as nat)
  {
    hide Swap, Queries, Response, Start, TotalSize, ReadValues, Readings, Columns, Types, Answer, AllQueries, Join, QueryFor, LittleEndian;
    EachTraceGetsItsReadings(meter, ts, i);
    ReadingAt(meter, Queries(ts[i]), k);
    ColumnsNameQueries(ts[i], k);
    LowByteFirst(meter(Queries(ts[i])[k]));
  }

  lemma {:induction false} LowByteFirst(w: string)
    requires |w| == 4
    ensures LittleEndian(w) == w[0] as nat + 256 * w[1] as nat + 65536 * w[2] as nat + 16777216 * w[3] as nat
  {
    hide Swap, FromBigEndian;
    WordTurned(w);
    FourBytes(w[3], w[2], w[1], w[0]);
  }

  lemma {:induction false} WordTurned(w: string)
    requires |w| == 4
    ensures Swap(w) == [w[3], w[2], w[1], w[0]]
  {
    hide Mirror;
    MirrorInWord(0, 0);
    MirrorInWord(0, 1);
    MirrorInWord(0, 2);
    MirrorInWord(0, 3);
  }

  lemma {:induction false} FourBytes(a: char, b: char, c: char, d: char)
    ensures FromBigEndian([a, b, c, d]) == d as nat + 256 * c as nat + 65536 * b as nat + 16777216 * a as nat
  {
    TwoBytes(c, d);
    assert [a, b, c, d][1..] == [b, c, d] && [b, c, d][1..] == [c, d];
    assert Power256(2) == 65536 && Power256(3) == 16777216;
    hide FromBigEndian, Power256;
    FirstByteWeighs([a, b, c, d]);
    FirstByteWeighs([b, c, d]);
  }

  lemma {:induction false} TwoBytes(c: char, d: char)
    ensures FromBigEndian([c, d]) == d as nat + 256 * c as nat
  {
    OneByte(d);
    OneByte(c);
    hide FromBigEndian;
    FirstByteWeighs([c, d]);
    assert [c, d][1..] == [d] && Power256(1) == 256;
  }

  lemma {:induction false} OneByte(c: char)
    ensures FromBigEndian([c]) == c as nat
  {
    assert [c][..0] == "";
  }

  /** The group of a trace takes an entry of that length: no check of its own refuses it. */
  lemma {:induction false} GroupTakesEntry(t: Trace, g: Groups.Group, entry: string, now: Timestamp)
    requires t.Count() > 0 && |entry| == Lengths(Types(t))
    requires Groups.Sound(g) && g.types == Types(t) && g.enabled && g.next == 0 && g.pending == ""
    ensures Groups.PutEntry(g, entry, now).1 in {Groups.Done, Groups.Failed(Groups.Aborted)}
  {
    hide Types, Floats, Lengths;
    ColumnsAreFloats(t);
    FloatsLength(t.Count());
    Groups.FixedIsPrefix(g.types);
  }

  // ---- Lists with other traces ----

  /** Where the loop looks for each part: behind a part that is not statistics it steps on by the size of
      the last part that was, or by whatever was there before. */
  function Positions(ts: seq<Trace>, at: nat, step: nat): seq<nat>
    decreases |ts|
  {
    if ts == [] then []
    else
      var o := if ts[0].kind == HdStats then Size(ts[0], true) else step;
      [at] + Positions(ts[1..], at + o, o)
  }

  function Due(ts: seq<Trace>, at: nat): seq<nat>
    decreases |ts|
  {
    if ts == [] then [] else [at] + Due(ts[1..], at + Size(ts[0], true))
  }

  /** Every part that is not statistics, but for the last, is as long as the step it is passed with. */
  predicate StepsFit(ts: seq<Trace>, step: nat)
    decreases |ts|
  {
    |ts| <= 1 || (
      var o := if ts[0].kind == HdStats then Size(ts[0], true) else step;
      o == Size(ts[0], true) && StepsFit(ts[1..], o))
  }

  /** The parts are found where they are exactly when the steps fit, as they do for statistics only. */
  lemma {:induction false} PositionsAreDue(ts: seq<Trace>, at: nat, step: nat)
    ensures Positions(ts, at, step) == Due(ts, at) <==> StepsFit(ts, step)
    ensures OnlyStats(ts) ==> StepsFit(ts, step)
    decreases |ts|
  {
    if ts != [] {
      var o := if ts[0].kind == HdStats then Size(ts[0], true) else step;
      PositionsAreDue(ts[1..], at + o, o);
      var p, d := Positions(ts, at, step), Due(ts, at);
      assert p[1..] == Positions(ts[1..], at + o, o) && d[1..] == Due(ts[1..], at + Size(ts[0], true));
      if |ts| > 1 && o != Size(ts[0], true) {
        assert p[1] == at + o && d[1] == at + Size(ts[0], true);
      }
    }
  }
}
