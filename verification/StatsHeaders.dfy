/** The header of a statistics file: where its group belongs and what its columns are, and a reader of it
    that knows the format and nothing of the writer. */
module StatsHeaders {
  import opened Basics
  import opened Decimals
  import opened Fields
  import opened StatsFormat

  /** A registered value. */
  datatype Column = Column(name: string, kind: ValueType, unit: Option<string>, grouping: Option<string>)

  // ---- The text ----

  function Escape(c: char): string {
    if c == '"' then "&quot;"
    else if c == '<' then "&lt;"
    else if c == '>' then "&gt;"
    else if c == '&' then "&amp;"
    else [c]
  }

  function Escaped(s: string): string { if s == "" then "" else Escape(s[0]) + Escaped(s[1..]) }

  const INDENT := "  "

  function Indents(n: nat): string { if n == 0 then "" else INDENT + Indents(n - 1) }

  function Quoted(key: string, value: Option<string>): string {
    match value
    case None => ""
    case Some(v) => key + "=\"" + Escaped(v) + "\" "
  }

  function Tag(c: Column): string {
    "<Value name=\"" + Escaped(c.name) + "\" type=\"" + TypeName(c.kind) + "\" "
    + Quoted("unit", c.unit) + Quoted("grouping", c.grouping) + "/>\n"
  }

  function Lines(cs: seq<Column>): string {
    if cs == [] then "" else Lines(cs[..|cs| - 1]) + INDENT + Tag(cs[|cs| - 1])
  }

  /** The labels of the path to the group's node, each inside the one before. */
  function LabelsFrom(labels: seq<string>, i: nat): string
    requires i < |labels|
    decreases |labels| - i
  {
    if i == |labels| - 1 then Indents(|labels|) + ("<Label value=\"" + labels[i] + "\" />\n")
    else Indents(i + 1) + ("<Label value=\"" + labels[i] + "\">\n") + LabelsFrom(labels, i + 1)
  }

  /** The first labels, all of them open. */
  function LabelsUpTo(labels: seq<string>, n: nat): string
    requires n <= |labels|
  {
    if n == 0 then "" else LabelsUpTo(labels, n - 1) + (Indents(n) + ("<Label value=\"" + labels[n - 1] + "\">\n"))
  }

  lemma {:induction false} LabelsAtOnce(labels: seq<string>, n: nat)
    requires n < |labels|
    ensures LabelsFrom(labels, 0) == LabelsUpTo(labels, n) + LabelsFrom(labels, n)
  {
    hide Indents;
    if n == 0 {
      assert "" + LabelsFrom(labels, 0) == LabelsFrom(labels, 0);
    } else {
      LabelsAtOnce(labels, n - 1);
      var line := Indents(n) + ("<Label value=\"" + labels[n - 1] + "\">\n");
      assert LabelsUpTo(labels, n - 1) + (line + LabelsFrom(labels, n)) == LabelsUpTo(labels, n - 1) + line + LabelsFrom(labels, n);
    }
  }

  lemma {:induction false} IndentsSplit(i: nat, n: nat)
    requires i < n
    ensures Indents(i) + INDENT == Indents(i + 1) && Indents(n) == Indents(i + 1) + Indents(n - i - 1)
  {
    if i == 0 {
      assert INDENT + "" == INDENT && "" + INDENT == INDENT;
    } else {
      IndentsSplit(i - 1, n - 1);
      assert INDENT + (Indents(i - 1) + INDENT) == INDENT + Indents(i - 1) + INDENT;
      assert INDENT + (Indents(i) + Indents(n - i - 1)) == INDENT + Indents(i) + Indents(n - i - 1);
    }
  }

  function LabelEnds(n: nat): string { if n == 0 then "" else Indents(n) + "</Label>\n" + LabelEnds(n - 1) }

  lemma {:induction false} EndsMore(done: string, n: nat)
    requires n > 0
    ensures done + (Indents(n) + "</Label>\n") + LabelEnds(n - 1) == done + LabelEnds(n)
  {
    hide Indents;
  }

  /** The times in the file count from the epoch: nothing is to be added to them. */
  function GroupClock(): string {
    " timestampDatatype=\"EPOCH\"" + " timeAdjustment=\"-" + Padded(0, 10) + "." + Padded(0, 9) + "\">"
  }

  function GroupTag(group: string): string { "<Group name=\"" + Escaped(group) + "\"" + GroupClock() + "\n" }

  function Topology(labels: seq<string>): string
    requires labels != []
  {
    "<TopologyNode>\n" + LabelsFrom(labels, 0) + LabelEnds(|labels| - 1) + "</TopologyNode>\n"
  }

  /** What a new group's header begins with. */
  function Opening(labels: seq<string>, group: string): string
    requires labels != []
  {
    "<Statistics>\n" + Topology(labels) + GroupTag(group)
  }

  const CLOSING := ["</Group>\n", "</Statistics>\n"]

  // ---- The reader ----

  /** What follows a beginning. */
  function Behind(s: string, mark: string): Option<string> { if mark <= s then Some(s[|mark|..]) else None }

  /** What stands in front of a character, and what behind it. */
  function Cut(s: string, c: char): Option<(string, string)> {
    var n := Until(s, c);
    if n == |s| then None else Some((s[..n], s[n + 1..]))
  }

  function SkipBlanks(s: string): (r: string)
    ensures |r| <= |s|
  {
    if s != "" && s[0] == ' ' then SkipBlanks(s[1..]) else s
  }

  function Unescaped(s: string): string
    decreases |s|
  {
    if s == "" then ""
    else if "&quot;" <= s then "\"" + Unescaped(s[6..])
    else if "&lt;" <= s then "<" + Unescaped(s[4..])
    else if "&gt;" <= s then ">" + Unescaped(s[4..])
    else if "&amp;" <= s then "&" + Unescaped(s[5..])
    else [s[0]] + Unescaped(s[1..])
  }

  function TypeOf(name: string): Option<ValueType> {
    if name == "INT32" then Some(INT32)
    else if name == "INT64" then Some(INT64)
    else if name == "UINT64" then Some(UINT64)
    else if name == "FLOAT" then Some(FLOAT)
    else if name == "DOUBLE" then Some(DOUBLE)
    else if name == "STRING" then Some(STRING)
    else None
  }

  /** An attribute behind some text, and what follows its value's closing quote. */
  function ReadValue(s: string, mark: string): (r: Option<(string, string)>)
    ensures r.Some? ==> |r.value.1| < |s|
  {
    var t := Behind(s, mark);
    if t.None? then None else Cut(t.value, '"')
  }

  /** An attribute that may be missing, and what follows it. */
  function ReadOptional(s: string, mark: string): (r: (Option<string>, string))
    ensures |r.1| <= |s|
  {
    var v := ReadValue(s, mark);
    if v.None? || v.value.1 == "" || v.value.1[0] != ' ' then (None, s) else (Some(Unescaped(v.value.0)), v.value.1[1..])
  }

  function ReadColumn(s: string): (r: Option<(Column, string)>)
    ensures r.Some? ==> |r.value.1| < |s|
  {
    var name := ReadValue(s, "  <Value name=\"");
    if name.None? then None
    else
      var kind := ReadValue(name.value.1, " type=\"");
      if kind.None? || kind.value.1 == "" || TypeOf(kind.value.0).None? then None
      else
        var (unit, t) := ReadOptional(kind.value.1[1..], "unit=\"");
        var (grouping, u) := ReadOptional(t, "grouping=\"");
        var rest := Behind(u, "/>\n");
        if rest.None? then None
        else Some((Column(Unescaped(name.value.0), TypeOf(kind.value.0).value, unit, grouping), rest.value))
  }

  function ReadColumns(s: string): Option<seq<Column>>
    decreases |s|
  {
    if s == "</Group>\n</Statistics>\n" then Some([])
    else
      var first := ReadColumn(s);
      if first.None? then None
      else
        var rest := ReadColumns(first.value.1);
        if rest.None? then None else Some([first.value.0] + rest.value)
  }

  /** Labels up to the innermost one, which is closed at once. */
  function ReadLabels(s: string): Option<(seq<string>, string)>
    decreases |s|
  {
    var text := ReadValue(SkipBlanks(s), "<Label value=\"");
    if text.None? then None
    else
      var (l, t) := text.value;
      if " />\n" <= t then Some(([l], t[4..]))
      else if !(">\n" <= t) then None
      else
        var rest := ReadLabels(t[2..]);
        if rest.None? then None else Some(([l] + rest.value.0, rest.value.1))
  }

  function SkipEnds(s: string): string
    decreases |s|
  {
    var t := Behind(SkipBlanks(s), "</Label>\n");
    if t.None? then s else SkipEnds(t.value)
  }

  /** What a header tells: the path, the group's name, how its times are to be adjusted, the columns. */
  datatype Description = Description(labels: seq<string>, group: string, adjustment: (nat, nat), columns: seq<Column>)

  /** What is to be taken from the times: seconds and nanoseconds. */
  function ReadClock(s: string): Option<((nat, nat), string)> {
    var v := ReadValue(s, " timestampDatatype=\"EPOCH\" timeAdjustment=\"-");
    var rest := if v.None? then None else Behind(v.value.1, ">\n");
    var numbers := if v.None? then None else ScanPoint(v.value.0);
    if rest.None? || numbers.None? then None else Some((numbers.value, rest.value))
  }

  function ReadHeader(header: string): Option<Description> {
    var s := Behind(header, "<Statistics>\n<TopologyNode>\n");
    var path := if s.None? then None else ReadLabels(s.value);
    var group := if path.None? then None else ReadValue(SkipEnds(path.value.1), "</TopologyNode>\n<Group name=\"");
    var clock := if group.None? then None else ReadClock(group.value.1);
    var columns := if clock.None? then None else ReadColumns(clock.value.1);
    if columns.None? then None else Some(Description(path.value.0, Unescaped(group.value.0), clock.value.0, columns.value))
  }

  // ---- Escaping ----

  lemma {:induction false} EscapedIsPlain(s: string)
    ensures '"' !in Escaped(s) && '<' !in Escaped(s) && '>' !in Escaped(s)
  {
    if s != "" { EscapedIsPlain(s[1..]); }
  }

  lemma {:induction false} UnescapedFirst(c: char, t: string)
    ensures Unescaped(Escape(c) + t) == [c] + Unescaped(t)
  {
    var s := Escape(c) + t;
    assert s[|Escape(c)|..] == t;
    if c != '"' && c != '<' && c != '>' && c != '&' {
      assert s[0] == c;
    } else {
      assert c == '<' || c == '>' || c == '&' ==> s[1] != 'q';
      assert c == '>' || c == '&' ==> s[1] != 'l';
      assert c == '&' ==> s[1] != 'g';
    }
  }

  /** Escaping loses nothing. */
  lemma {:induction false} EscapeRoundTrip(s: string)
    ensures Unescaped(Escaped(s)) == s
  {
    hide Escape, Unescaped;
    if s != "" {
      UnescapedFirst(s[0], Escaped(s[1..]));
      EscapeRoundTrip(s[1..]);
    } else {
      NothingEscaped();
    }
  }

  lemma {:induction false} NothingEscaped()
    ensures Unescaped("") == ""
  {
  }

  lemma {:induction false} TypeRoundTrip(t: ValueType)
    ensures TypeOf(TypeName(t)) == Some(t) && '"' !in TypeName(t)
  {
  }

  // ---- A column ----

  lemma {:induction false} ValueRead(mark: string, value: string, rest: string)
    requires '"' !in value
    ensures ReadValue(mark + value + ("\"" + rest), mark) == Some((value, rest))
  {
    var t := value + ("\"" + rest);
    var s := mark + value + ("\"" + rest);
    assert s == mark + t && s[|mark|..] == t;
    UntilStops(value, '"', "\"" + rest);
    assert t[..|value|] == value && t[|value| + 1..] == rest;
  }

  lemma {:induction false} OptionalRead(key: string, value: Option<string>, rest: string)
    requires value.None? ==> !(key + "=\"" <= rest)
    ensures ReadOptional(Quoted(key, value) + rest, key + "=\"") == (value, rest)
  {
    match value
    case None => assert "" + rest == rest;
    case Some(v) =>
      EscapedIsPlain(v);
      EscapeRoundTrip(v);
      var mark := key + "=\"";
      ValueRead(mark, Escaped(v), " " + rest);
      assert Quoted(key, value) + rest == mark + Escaped(v) + ("\"" + (" " + rest));
      assert (" " + rest)[1..] == rest;
  }

  /** Behind the type. */
  function TagTail(c: Column): string { Quoted("unit", c.unit) + (Quoted("grouping", c.grouping) + "/>\n") }

  lemma {:induction false} TagParts(c: Column, rest: string)
    ensures INDENT + Tag(c) + rest
         == "  <Value name=\"" + Escaped(c.name) + ("\"" + (" type=\"" + TypeName(c.kind) + ("\"" + (" " + (TagTail(c) + rest)))))
  {
    hide Escaped, TypeName, Quoted;
    var a, b := Quoted("unit", c.unit), Quoted("grouping", c.grouping);
    var front := "<Value name=\"" + Escaped(c.name) + "\" type=\"" + TypeName(c.kind) + "\" ";
    assert front + a + b + "/>\n" == front + (a + (b + "/>\n"));
    assert Tag(c) == front + TagTail(c);
    FrontParts(Escaped(c.name), TypeName(c.kind), TagTail(c) + rest);
  }

  lemma {:induction false} FrontParts(name: string, kind: string, rest: string)
    ensures INDENT + ("<Value name=\"" + name + "\" type=\"" + kind + "\" ") + rest
         == "  <Value name=\"" + name + ("\"" + (" type=\"" + kind + ("\"" + (" " + rest))))
  {
    assert INDENT + "<Value name=\"" == "  <Value name=\"";
    assert "\" type=\"" == "\"" + " type=\"" && "\" " == "\"" + " ";
  }

  lemma {:induction false} TailRead(c: Column, rest: string)
    ensures var (unit, t) := ReadOptional(TagTail(c) + rest, "unit=\"");
      && unit == c.unit
      && ReadOptional(t, "grouping=\"") == (c.grouping, "/>\n" + rest)
  {
    hide ReadOptional;
    var g := Quoted("grouping", c.grouping) + ("/>\n" + rest);
    assert TagTail(c) + rest == Quoted("unit", c.unit) + g;
    assert g[0] == 'g' || g[0] == '/';
    assert ("unit" + "=\"")[0] == 'u' && ("grouping" + "=\"")[0] == 'g';
    assert "unit" + "=\"" == "unit=\"" && "grouping" + "=\"" == "grouping=\"";
    OptionalRead("unit", c.unit, g);
    OptionalRead("grouping", c.grouping, "/>\n" + rest);
  }

  /** A column's tag tells the column: name, type, unit and grouping. */
  lemma {:induction false} ColumnRoundTrip(c: Column, rest: string)
    ensures ReadColumn(INDENT + Tag(c) + rest) == Some((c, rest))
  {
    hide ReadOptional, TagTail, TypeName, TypeOf, Escaped, ReadValue, Unescaped;
    TagParts(c, rest);
    EscapedIsPlain(c.name);
    EscapeRoundTrip(c.name);
    TypeRoundTrip(c.kind);
    var tail := " " + (TagTail(c) + rest);
    assert tail[1..] == TagTail(c) + rest;
    ValueRead("  <Value name=\"", Escaped(c.name), " type=\"" + TypeName(c.kind) + ("\"" + tail));
    ValueRead(" type=\"", TypeName(c.kind), tail);
    TailRead(c, rest);
    assert ("/>\n" + rest)[3..] == rest;
  }

  lemma {:induction false} LinesMore(cs: seq<Column>, c: Column)
    ensures Lines(cs + [c]) == Lines(cs) + INDENT + Tag(c) && Lines([]) == ""
  {
    hide Tag;
    assert (cs + [c])[..|cs|] == cs;
  }

  lemma {:induction false} Join4(x: string, y: string, a: string, b: string)
    ensures x + y + a + b == x + (y + a + b)
  {
  }

  lemma {:induction false} LinesFirst(cs: seq<Column>)
    requires cs != []
    ensures Lines(cs) == INDENT + Tag(cs[0]) + Lines(cs[1..])
  {
    hide Tag, Lines;
    var n := |cs| - 1;
    assert cs == cs[..n] + [cs[n]];
    LinesMore(cs[..n], cs[n]);
    if n == 0 {
      assert cs[..0] == [] && cs[1..] == [];
      assert "" + INDENT + Tag(cs[0]) == INDENT + Tag(cs[0]) + "";
    } else {
      LinesFirst(cs[..n]);
      var middle := cs[1..n];
      assert cs[..n][1..] == middle && cs[1..] == middle + [cs[n]];
      LinesMore(middle, cs[n]);
      Join4(INDENT + Tag(cs[0]), Lines(middle), INDENT, Tag(cs[n]));
    }
  }

  /** A line more at the front. */
  lemma {:induction false} ReadOneMore(c: Column, rest: string)
    ensures ReadColumns(INDENT + Tag(c) + rest)
         == var r := ReadColumns(rest); if r.None? then None else Some([c] + r.value)
  {
    hide Tag, ReadColumn;
    var s := INDENT + Tag(c) + rest;
    assert s[0] == ' ';
    ColumnRoundTrip(c, rest);
  }

  lemma {:induction false} NoColumns()
    ensures Lines([]) + (CLOSING[0] + CLOSING[1]) == "</Group>\n</Statistics>\n"
    ensures ReadColumns("</Group>\n</Statistics>\n") == Some([])
  {
  }

  lemma {:induction false} ColumnsRoundTrip(cs: seq<Column>)
    ensures ReadColumns(Lines(cs) + (CLOSING[0] + CLOSING[1])) == Some(cs)
  {
    hide Tag, ReadColumns, Lines;
    if cs == [] {
      NoColumns();
    } else {
      LinesFirst(cs);
      var rest := Lines(cs[1..]) + (CLOSING[0] + CLOSING[1]);
      assert Lines(cs) + (CLOSING[0] + CLOSING[1]) == INDENT + Tag(cs[0]) + rest;
      ReadOneMore(cs[0], rest);
      ColumnsRoundTrip(cs[1..]);
      assert [cs[0]] + cs[1..] == cs;
    }
  }

  // ---- The path ----

  lemma {:induction false} OneIndent(t: string)
    ensures SkipBlanks(INDENT + t) == SkipBlanks(t)
  {
    var u := " " + t;
    assert INDENT + t == " " + u && (" " + u)[1..] == u && u[1..] == t;
  }

  lemma {:induction false} IndentsSkipped(n: nat, s: string)
    requires s != "" && s[0] != ' '
    ensures SkipBlanks(Indents(n) + s) == s
  {
    if n == 0 {
      assert "" + s == s;
    } else {
      OneIndent(Indents(n - 1) + s);
      assert Indents(n) + s == INDENT + (Indents(n - 1) + s);
      IndentsSkipped(n - 1, s);
    }
  }

  lemma {:induction false} LabelRead(n: nat, text: string, rest: string)
    requires '"' !in text
    ensures ReadValue(SkipBlanks(Indents(n) + ("<Label value=\"" + text + ("\"" + rest))), "<Label value=\"") == Some((text, rest))
  {
    hide ReadValue, SkipBlanks;
    var s := "<Label value=\"" + text + ("\"" + rest);
    IndentsSkipped(n, s);
    ValueRead("<Label value=\"", text, rest);
  }

  lemma {:induction false} LabelsRoundTrip(labels: seq<string>, i: nat, rest: string)
    requires i < |labels| && forall l | l in labels :: '"' !in l
    ensures ReadLabels(LabelsFrom(labels, i) + rest) == Some((labels[i..], rest))
    decreases |labels| - i
  {
    hide ReadValue, SkipBlanks, Indents;
    var n := |labels|;
    var text, s := labels[i], LabelsFrom(labels, i) + rest;
    assert text in labels;
    if i == n - 1 {
      LabelRead(n, text, " />\n" + rest);
      assert s == Indents(n) + ("<Label value=\"" + text + ("\"" + (" />\n" + rest)));
      assert (" />\n" + rest)[4..] == rest && labels[i..] == [text];
    } else {
      var inner := LabelsFrom(labels, i + 1) + rest;
      LabelRead(i + 1, text, ">\n" + inner);
      LabelsSplit(Indents(i + 1), text, LabelsFrom(labels, i + 1), rest);
      assert s == Indents(i + 1) + ("<Label value=\"" + text + ("\"" + (">\n" + inner)));
      assert (">\n" + inner)[2..] == inner;
      assert (">\n" + inner)[0] == '>';
      LabelsRoundTrip(labels, i + 1, rest);
      assert labels[i..] == [text] + labels[i + 1..];
    }
  }

  lemma {:induction false} LabelsSplit(indent: string, text: string, inner: string, rest: string)
    ensures indent + ("<Label value=\"" + text + "\">\n") + inner + rest
         == indent + ("<Label value=\"" + text + ("\"" + (">\n" + (inner + rest))))
  {
    assert "<Label value=\"" + text + "\">\n" + (inner + rest) == "<Label value=\"" + text + ("\"" + (">\n" + (inner + rest)));
  }

  lemma {:induction false} EndsSkipped(n: nat, rest: string)
    requires rest != "" && rest[0] != ' ' && !("</Label>\n" <= rest)
    ensures SkipEnds(LabelEnds(n) + rest) == rest
  {
    if n == 0 {
      assert "" + rest == rest;
    } else {
      var t := LabelEnds(n - 1) + rest;
      IndentsSkipped(n, "</Label>\n" + t);
      assert LabelEnds(n) + rest == Indents(n) + ("</Label>\n" + t);
      assert ("</Label>\n" + t)[9..] == t;
      EndsSkipped(n - 1, rest);
    }
  }

  // ---- The whole header ----

  lemma {:induction false} NotInZeros(c: char, width: nat)
    requires width > 0 && !IsDigit(c)
    ensures c !in Padded(0, width)
  {
    PaddedField(0, width);
    hide Padded;
  }

  lemma {:induction false} ClockRead(body: string)
    ensures ReadClock(GroupClock() + ("\n" + body)) == Some(((0, 0), body))
  {
    PaddedField(0, 10);
    PaddedField(0, 9);
    NotInZeros('"', 10);
    NotInZeros('"', 9);
    hide Padded, ReadValue, ScanPoint, Decimals.Value;
    var (a, b) := (Padded(0, 10), Padded(0, 9));
    PointScanned(a, b);
    var mark, v := " timestampDatatype=\"EPOCH\" timeAdjustment=\"-", a + "." + b;
    ValueRead(mark, v, ">\n" + body);
    ClockParts(a, b, body);
    assert (">\n" + body)[2..] == body;
  }

  lemma {:induction false} ClockParts(a: string, b: string, body: string)
    ensures " timestampDatatype=\"EPOCH\"" + " timeAdjustment=\"-" + a + "." + b + "\">" + ("\n" + body)
         == " timestampDatatype=\"EPOCH\" timeAdjustment=\"-" + (a + "." + b) + ("\"" + (">\n" + body))
  {
    var front := " timestampDatatype=\"EPOCH\"" + " timeAdjustment=\"-";
    assert front == " timestampDatatype=\"EPOCH\" timeAdjustment=\"-";
    assert "\">" + ("\n" + body) == "\"" + (">\n" + body);
    assert front + a + "." + b == front + (a + "." + b);
  }

  lemma {:induction false} GroupParts(group: string, body: string)
    ensures "</TopologyNode>\n" + GroupTag(group) + body
         == "</TopologyNode>\n<Group name=\"" + Escaped(group) + ("\"" + (GroupClock() + ("\n" + body)))
  {
    hide Escaped, GroupClock;
    var front := "</TopologyNode>\n";
    assert front + "<Group name=\"" == "</TopologyNode>\n<Group name=\"";
    assert GroupTag(group) + body == "<Group name=\"" + (Escaped(group) + ("\"" + (GroupClock() + ("\n" + body))));
  }

  lemma {:induction false} GroupRead(group: string, body: string)
    ensures var g := ReadValue("</TopologyNode>\n" + GroupTag(group) + body, "</TopologyNode>\n<Group name=\"");
      && g.Some? && Unescaped(g.value.0) == group
      && ReadClock(g.value.1) == Some(((0, 0), body))
  {
    hide ReadValue, Escaped, Unescaped, GroupTag, GroupClock, ReadClock;
    EscapedIsPlain(group);
    EscapeRoundTrip(group);
    ValueRead("</TopologyNode>\n<Group name=\"", Escaped(group), GroupClock() + ("\n" + body));
    GroupParts(group, body);
    ClockRead(body);
  }

  lemma {:induction false} HeaderParts(labels: seq<string>, group: string, lines: string)
    requires labels != []
    ensures Opening(labels, group) + lines
         == "<Statistics>\n<TopologyNode>\n" + (LabelsFrom(labels, 0) + (LabelEnds(|labels| - 1) + ("</TopologyNode>\n" + GroupTag(group) + lines)))
  {
    hide LabelsFrom, LabelEnds, GroupTag;
    var a, b, c, d := "<TopologyNode>\n", LabelsFrom(labels, 0), LabelEnds(|labels| - 1), GroupTag(group);
    assert "<Statistics>\n" + a == "<Statistics>\n<TopologyNode>\n";
    assert a + b + c + "</TopologyNode>\n" + d + lines == a + (b + (c + ("</TopologyNode>\n" + d + lines)));
    assert Opening(labels, group) + lines == "<Statistics>\n" + (a + b + c + "</TopologyNode>\n" + d + lines);
  }

  /** The header tells the path, the group's name and the columns, in order, whatever they are called; a
      label is not escaped and must not hold a quote. */
  lemma {:induction false} DescriptionRoundTrip(labels: seq<string>, group: string, cs: seq<Column>)
    requires labels != [] && forall l | l in labels :: '"' !in l
    ensures ReadHeader(Opening(labels, group) + Lines(cs) + CLOSING[0] + CLOSING[1]) == Some(Description(labels, group, (0, 0), cs))
  {
    hide Opening, Lines, ReadLabels, SkipEnds, ReadValue, ReadClock, ReadColumns, LabelsFrom, LabelEnds, GroupTag, Unescaped;
    var lines := Lines(cs) + (CLOSING[0] + CLOSING[1]);
    HeaderParts(labels, group, lines);
    var header := Opening(labels, group) + lines;
    assert Opening(labels, group) + Lines(cs) + CLOSING[0] + CLOSING[1] == header;
    var mark := "<Statistics>\n<TopologyNode>\n";
    var last := "</TopologyNode>\n" + GroupTag(group) + lines;
    var ends := LabelEnds(|labels| - 1) + last;
    var body := LabelsFrom(labels, 0) + ends;
    assert header == mark + body;
    assert header[|mark|..] == body;
    LabelsRoundTrip(labels, 0, ends);
    assert labels[0..] == labels;
    assert last[2] == 'T';
    EndsSkipped(|labels| - 1, last);
    GroupRead(group, lines);
    ColumnsRoundTrip(cs);
  }
}
