/** Reading a trace back from its characters: a scanner that knows the format and nothing of the writer. */
module TraceTexts {
  import opened Basics
  import opened Decimals
  import opened Fields
  import opened StateLogs
  import Reader = LogReader

  // ---- The scanner ----

  /** The length of what stands in front of the first closing tag. */
  function UntilClosing(s: string): (n: nat)
    ensures n <= |s|
  {
    if s == "" || "</" <= s then 0 else 1 + UntilClosing(s[1..])
  }

  function LeadingTabs(s: string): (n: nat)
    ensures n <= |s|
  {
    if s == "" || s[0] != '\t' then 0 else 1 + LeadingTabs(s[1..])
  }

  predicate OfStamp(c: char) { c == '-' || c == '.' || '0' <= c <= '9' }

  /** The length of the time at the end of a text. */
  function StampTail(s: string): (n: nat)
    ensures n <= |s|
  {
    if s == "" || !OfStamp(s[|s| - 1]) then 0 else 1 + StampTail(s[..|s| - 1])
  }

  function ScanStamp(s: string, offset: int): Option<Time> {
    var negative := s != "" && s[0] == '-';
    var r := ScanPoint(if negative then s[1..] else s);
    if r.None? then None
    else
      var seconds: int := r.value.0;
      Some(Time(offset + (if negative then -seconds else seconds), r.value.1))
  }

  /** Cuts off an attribute that is a time: what stands in front of it, and the time. */
  function CutStamp(s: string, mark: string): Option<(string, string)> {
    if s == "" || s[|s| - 1] != '\'' then None
    else
      var t := s[..|s| - 1];
      var k := |t| - StampTail(t);
      if k < |mark| || t[k - |mark|..k] != mark then None else Some((t[..k - |mark|], t[k..]))
  }

  /** What stands between the angle brackets of a state's tag, read from both ends. */
  function ScanOpening(s: string, offset: int): Option<Info> {
    var end := CutStamp(s, " end='");
    if end.None? then None
    else
      var start := CutStamp(end.value.0, " time='");
      if start.None? then None
      else
        var head := start.value.0;
        var n := Until(head, ' ');
        var (t, u) := (ScanStamp(start.value.1, offset), ScanStamp(end.value.1, offset));
        if n == |head| || t.None? || u.None? then None
        else Some(Info(head[..n], head[n + 1..], "", t.value, u.value))
  }

  /** The elements of a state and its closing tag. */
  function ScanElements(d: nat, i: Info, s: string): (r: Option<(Message, string)>)
    ensures r.Some? ==> |r.value.1| <= |s|
  {
    var n := UntilClosing(s);
    var closing := "</" + i.name + ">\n";
    if closing <= s[n..] then Some((Tag(d, i.(elements := s[..n])), s[n + |closing|..])) else None
  }

  function ScanTag(d: nat, s: string, offset: int): (r: Option<(Message, string)>)
    ensures r.Some? ==> |r.value.1| < |s|
  {
    var n := Until(s, '>');
    if n == |s| || s[0] != '<' then None
    else
      var closed := s[n - 1] == '/';
      var info := if closed && n == 1 then None else ScanOpening(s[1..if closed then n - 1 else n], offset);
      var rest := s[n + 1..];
      if info.None? || rest == "" || rest[0] != '\n' then None
      else if closed then Some((Tag(d, info.value), rest[1..]))
      else ScanElements(d, info.value, rest[1..])
  }

  /** One message, and what follows it. */
  function ScanMessage(text: string, offset: int): (r: Option<(Message, string)>)
    ensures r.Some? ==> |r.value.1| < |text|
  {
    var d := LeadingTabs(text);
    var s := text[d..];
    if "<Nested>\n" <= s then Some((NestedOpen(d), s[9..]))
    else if "</Nested>\n" <= s then Some((NestedClose(d), s[10..]))
    else ScanTag(d, s, offset)
  }

  /** Messages up to the end of the program. */
  function ScanAll(text: string, offset: int): Option<seq<Message>>
    decreases |text|
  {
    if text == "</Program>\n\n" then Some([])
    else
      var first := ScanMessage(text, offset);
      if first.None? then None
      else
        var rest := ScanAll(first.value.1, offset);
        if rest.None? then None else Some([first.value.0] + rest.value)
  }

  /** What a trace file says was recorded, with its times as they were. */
  function ReadTrace(file: string): Option<Forest> {
    var mark := "<Program timeAdjustment='";
    if !(mark <= file) then None
    else
      var s := file[|mark|..];
      var (n, k) := (Digits(s), Until(s, '\n'));
      if n == 0 || k == |s| then None
      else
        var ms := ScanAll(s[k + 1..], Decimals.Value(s[..n]));
        if ms.None? then None else Reader.Decode(ms.value)
  }

  // ---- Texts that can be told apart ----

  /** Nothing in the names, attributes and elements looks like the markup around them. */
  predicate Clean(i: Info) {
    && ' ' !in i.name && '>' !in i.name && '>' !in i.attributes
    && forall k | 0 <= k < |i.elements| - 1 :: !(i.elements[k] == '<' && i.elements[k + 1] == '/')
  }

  predicate CleanMessage(m: Message) { m.Tag? ==> Clean(m.info) }

  // ---- The parts of a message ----

  lemma {:induction false} ClosingStops(a: string, b: string)
    requires forall k | 0 <= k < |a| - 1 :: !(a[k] == '<' && a[k + 1] == '/')
    requires "</" <= b
    ensures UntilClosing(a + b) == |a|
  {
    assert b[0] == '<' && b[1] == '/';
    if a == "" {
      assert a + b == b;
    } else {
      var s := a + b;
      assert s[1..] == a[1..] + b;
      assert !("</" <= s) by {
        if |a| > 1 {
          assert s[0] == a[0] && s[1] == a[1];
        } else {
          assert s[1] == b[0];
        }
      }
      forall k | 0 <= k < |a[1..]| - 1 ensures !(a[1..][k] == '<' && a[1..][k + 1] == '/') {
        assert a[1..][k] == a[k + 1] && a[1..][k + 1] == a[k + 2];
      }
      ClosingStops(a[1..], b);
    }
  }

  lemma {:induction false} TabsStop(d: nat, s: string)
    requires s != "" && s[0] != '\t'
    ensures LeadingTabs(Tabs(d) + s) == d && (Tabs(d) + s)[d..] == s
  {
    if d == 0 {
      assert Tabs(0) + s == s;
    } else {
      assert (Tabs(d) + s)[1..] == Tabs(d - 1) + s;
      TabsStop(d - 1, s);
    }
  }

  predicate Stamped(s: string) { forall i | 0 <= i < |s| :: OfStamp(s[i]) }

  lemma {:induction false} StampStops(a: string, s: string)
    requires a != "" && !OfStamp(a[|a| - 1]) && Stamped(s)
    ensures StampTail(a + s) == |s|
  {
    if s == "" {
      assert a + s == a;
    } else {
      var n := |s| - 1;
      assert (a + s)[..|a + s| - 1] == a + s[..n];
      StampStops(a, s[..n]);
    }
  }

  lemma {:induction false} DigitsOfStamp(s: string)
    requires forall c | c in s :: IsDigit(c)
    ensures Stamped(s)
  {
    forall i | 0 <= i < |s| ensures OfStamp(s[i]) {
      assert s[i] in s && IsDigit(s[i]);
    }
  }

  /** A printed time is scanned as that time, also when it lies before the creation of the trace. */
  lemma {:induction false} StampRoundTrip(t: Time, offset: int)
    ensures ScanStamp(Stamp(t, offset), offset) == Some(t) && Stamped(Stamp(t, offset))
  {
    hide Natural, Padded, Decimals.Value, ScanStamp, Stamped;
    var sec := t.sec - offset;
    var n: nat := if sec < 0 then -sec else sec;
    var digits, fraction := Natural(n), Padded(t.usec, 6);
    PaddedField(t.usec, 6);
    ValueOfNatural(n);
    StampScanned(sec < 0, digits, fraction, offset);
    assert Signed(sec) == (if sec < 0 then "-" else "") + digits by {
      assert "" + digits == digits;
    }
    assert offset + sec == t.sec;
  }

  lemma {:induction false} StampScanned(negative: bool, digits: string, fraction: string, offset: int)
    requires digits != "" && fraction != "" && (forall c | c in digits :: IsDigit(c)) && (forall c | c in fraction :: IsDigit(c))
    ensures var s := (if negative then "-" else "") + digits + "." + fraction;
      && Stamped(s)
      && var n: int := Decimals.Value(digits);
         ScanStamp(s, offset) == Some(Time(offset + (if negative then -n else n), Decimals.Value(fraction)))
  {
    hide Decimals.Value, Stamped, Digits, ScanPoint;
    var t := digits + "." + fraction;
    var s := (if negative then "-" else "") + digits + "." + fraction;
    StampsJoin(negative, digits, fraction);
    PointScanned(digits, fraction);
    assert IsDigit(digits[0]) by { assert digits[0] in digits; }
    assert s == (if negative then "-" else "") + t;
    if negative {
      assert s[1..] == t;
    } else {
      assert s == t && s[0] == digits[0];
    }
  }

  lemma {:induction false} StampsJoin(negative: bool, digits: string, fraction: string)
    requires (forall c | c in digits :: IsDigit(c)) && (forall c | c in fraction :: IsDigit(c))
    ensures Stamped((if negative then "-" else "") + digits + "." + fraction)
  {
    DigitsOfStamp(digits);
    DigitsOfStamp(fraction);
  }

  lemma {:induction false} CutStampOf(a: string, mark: string, stamp: string)
    requires mark != "" && mark[|mark| - 1] == '\'' && Stamped(stamp)
    ensures CutStamp(a + mark + stamp + "'", mark) == Some((a, stamp))
  {
    var s := a + mark + stamp + "'";
    var t := s[..|s| - 1];
    assert t == (a + mark) + stamp;
    assert !OfStamp('\'');
    StampStops(a + mark, stamp);
    var k := |a + mark|;
    assert t[k - |mark|..k] == mark && t[..k - |mark|] == a && t[k..] == stamp;
  }

  /** Between the angle brackets. */
  function Opening(i: Info, offset: int): string {
    i.name + " " + i.attributes + " time='" + Stamp(i.start, offset) + "'" + " end='" + Stamp(i.end, offset) + "'"
  }

  lemma {:induction false} OpeningRoundTrip(i: Info, offset: int)
    requires Clean(i)
    ensures ScanOpening(Opening(i, offset), offset) == Some(i.(elements := ""))
  {
    hide Stamp, ScanStamp, Stamped, CutStamp;
    var head := i.name + " " + i.attributes;
    var front := head + " time='" + Stamp(i.start, offset) + "'";
    StampRoundTrip(i.start, offset);
    StampRoundTrip(i.end, offset);
    CutStampOf(front, " end='", Stamp(i.end, offset));
    CutStampOf(head, " time='", Stamp(i.start, offset));
    UntilStops(i.name, ' ', " " + i.attributes);
    assert head == i.name + (" " + i.attributes);
    assert head[..|i.name|] == i.name && head[|i.name| + 1..] == i.attributes;
  }

  lemma {:induction false} NoAngle(s: string)
    requires Stamped(s)
    ensures '>' !in s
  {
    assert !OfStamp('>');
  }

  lemma {:induction false} OpeningHasNoAngle(i: Info, offset: int)
    requires Clean(i)
    ensures '>' !in Opening(i, offset)
  {
    hide Stamp, Stamped;
    StampRoundTrip(i.start, offset);
    StampRoundTrip(i.end, offset);
    NoAngle(Stamp(i.start, offset));
    NoAngle(Stamp(i.end, offset));
  }

  /** What follows the opening part of a state's tag. */
  function Closing(i: Info): string {
    if i.elements == "" then "/>\n" else ">\n" + i.elements + "</" + i.name + ">\n"
  }

  lemma {:induction false} TagText(d: nat, i: Info, offset: int)
    ensures Text(Tag(d, i), offset) == Tabs(d) + ("<" + Opening(i, offset) + Closing(i))
  {
    hide Stamp, Tabs;
    var (s, t) := (Stamp(i.start, offset), Stamp(i.end, offset));
    var front := i.name + " " + i.attributes + " time='" + s;
    assert front + "' end='" == front + "'" + " end='";
    Assemble(Tabs(d), i.name, i.attributes, s, t + "'", Closing(i));
    assert front + "'" + " end='" + (t + "'") == Opening(i, offset);
    BehindFour(Tabs(d) + "<" + i.name + " " + i.attributes + " time='" + s, "' end='", t, "'");
  }

  lemma {:induction false} BehindFour(w: string, x: string, y: string, z: string)
    ensures w + x + y + z == w + x + (y + z)
  {
  }

  lemma {:induction false} Assemble(tabs: string, name: string, attributes: string, s: string, t: string, closing: string)
    ensures tabs + "<" + name + " " + attributes + " time='" + s + "' end='" + t + closing
         == tabs + ("<" + (name + " " + attributes + " time='" + s + "' end='" + t) + closing)
  {
    var a := name + " " + attributes + " time='" + s + "' end='" + t;
    assert tabs + "<" + name + " " + attributes + " time='" + s + "' end='" + t == tabs + "<" + a by {
      assert (tabs + "<") + (name + " ") == tabs + "<" + name + " ";
      InFront(tabs + "<", name, " ", attributes, " time='", s, "' end='", t);
    }
  }

  lemma {:induction false} InFront(w: string, a: string, b: string, c: string, d: string, e: string, f: string, g: string)
    ensures w + a + b + c + d + e + f + g == w + (a + b + c + d + e + f + g)
  {
    assert w + a + b == w + (a + b);
    var x := a + b;
    assert w + x + c == w + (x + c);
    var y := x + c;
    assert w + y + d == w + (y + d);
    var z := y + d;
    assert w + z + e == w + (z + e);
    var u := z + e;
    assert w + u + f == w + (u + f);
    var v := u + f;
    assert w + v + g == w + (v + g);
  }

  lemma {:induction false} ElementsRoundTrip(d: nat, i: Info, rest: string)
    requires Clean(i)
    ensures ScanElements(d, i.(elements := ""), i.elements + ("</" + i.name + ">\n" + rest)) == Some((Tag(d, i), rest))
  {
    var closing := "</" + i.name + ">\n";
    var s := i.elements + (closing + rest);
    assert closing[0] == '<' && closing[1] == '/';
    assert "</" <= closing + rest;
    ClosingStops(i.elements, closing + rest);
    var n := |i.elements|;
    assert s[..n] == i.elements && s[n..] == closing + rest && s[n + |closing|..] == rest;
  }

  /** The bracket that closes the opening part, where it stands and what surrounds it. */
  lemma {:induction false} AngleOfEmpty(core: string, rest: string)
    requires '>' !in core && core != ""
    ensures var s, n := "<" + core + "/>\n" + rest, |core| + 2;
      && Until(s, '>') == n < |s| && s[0] == '<' && s[n - 1] == '/'
      && s[1..n - 1] == core && s[n + 1..] == "\n" + rest && s[n + 1..][1..] == rest
  {
    UntilStops("<" + core + "/", '>', ">\n" + rest);
    assert "<" + core + "/>\n" + rest == ("<" + core + "/") + (">\n" + rest);
  }

  lemma {:induction false} AngleOfFull(core: string, more: string)
    requires '>' !in core && core != "" && core[|core| - 1] == '\''
    ensures var s, n := "<" + core + (">\n" + more), |core| + 1;
      && Until(s, '>') == n < |s| && s[0] == '<' && s[n - 1] == '\''
      && s[1..n] == core && s[n + 1..] == "\n" + more && s[n + 1..][1..] == more
  {
    UntilStops("<" + core, '>', ">\n" + more);
    var s := "<" + core + (">\n" + more);
    assert s[|core|] == core[|core| - 1];
  }

  lemma {:induction false} OpeningEnds(i: Info, offset: int)
    ensures var core := Opening(i, offset); core != "" && core[|core| - 1] == '\''
  {
    hide Stamp;
  }

  lemma {:induction false} TagRoundTrip(d: nat, i: Info, offset: int, rest: string)
    requires Clean(i)
    ensures ScanTag(d, "<" + Opening(i, offset) + Closing(i) + rest, offset) == Some((Tag(d, i), rest))
  {
    hide Opening, ScanOpening, Clean, ScanElements, Until;
    var core := Opening(i, offset);
    OpeningEnds(i, offset);
    OpeningHasNoAngle(i, offset);
    OpeningRoundTrip(i, offset);
    if i.elements == "" {
      AngleOfEmpty(core, rest);
    } else {
      var more := i.elements + ("</" + i.name + ">\n" + rest);
      AngleOfFull(core, more);
      FullTag("<" + core, i, rest);
      ElementsRoundTrip(d, i, rest);
    }
  }

  lemma {:induction false} FullTag(front: string, i: Info, rest: string)
    requires i.elements != ""
    ensures front + Closing(i) + rest == front + (">\n" + (i.elements + ("</" + i.name + ">\n" + rest)))
  {
    assert Closing(i) + rest == ">\n" + (i.elements + ("</" + i.name + ">\n" + rest));
  }

  lemma {:induction false} NestedMarks(s: string)
    ensures "<Nested>\n" <= s ==> s[7] == '>' && forall k | 0 <= k < 7 :: s[k] != ' '
    ensures "</Nested>\n" <= s ==> s[8] == '>' && forall k | 0 <= k < 8 :: s[k] != ' '
  {
    var open, close := "<Nested>\n", "</Nested>\n";
    assert forall k | 0 <= k < 9 :: open[k] != ' ';
    assert forall k | 0 <= k < 10 :: close[k] != ' ';
    assert open <= s ==> forall k | 0 <= k < 9 :: s[k] == open[k];
    assert close <= s ==> forall k | 0 <= k < 10 :: s[k] == close[k];
  }

  /** No tag of a state looks like a nested element: a blank comes before its first closing bracket. */
  lemma {:induction false} NotNested(i: Info, tail: string)
    requires Clean(i)
    ensures var s := "<" + (i.name + " " + tail); !("<Nested>\n" <= s) && !("</Nested>\n" <= s)
  {
    var s := "<" + (i.name + " " + tail);
    var n := |i.name| + 1;
    assert s[n] == ' ';
    forall k | 0 <= k < n ensures s[k] != '>' {
      assert k > 0 ==> s[k] == i.name[k - 1] && i.name[k - 1] in i.name;
    }
    NestedMarks(s);
  }

  // ---- Messages and files ----

  lemma {:induction false} OpenRoundTrip(d: nat, offset: int, rest: string)
    ensures ScanMessage(Text(NestedOpen(d), offset) + rest, offset) == Some((NestedOpen(d), rest))
  {
    hide Stamp, Tabs;
    var s := "<Nested>\n" + rest;
    TabsStop(d, s);
    assert Text(NestedOpen(d), offset) + rest == Tabs(d) + s;
    assert s[9..] == rest;
  }

  lemma {:induction false} CloseRoundTrip(d: nat, offset: int, rest: string)
    ensures ScanMessage(Text(NestedClose(d), offset) + rest, offset) == Some((NestedClose(d), rest))
  {
    hide Stamp, Tabs;
    var s := "</Nested>\n" + rest;
    TabsStop(d, s);
    assert Text(NestedClose(d), offset) + rest == Tabs(d) + s;
    assert s[1] == '/' && s[10..] == rest;
  }

  lemma {:induction false} StateRoundTrip(d: nat, i: Info, offset: int, rest: string)
    requires Clean(i)
    ensures ScanMessage(Text(Tag(d, i), offset) + rest, offset) == Some((Tag(d, i), rest))
  {
    hide Opening, Clean, ScanTag, Closing, Text, Tabs;
    var s := "<" + Opening(i, offset) + Closing(i) + rest;
    TagText(d, i, offset);
    assert Text(Tag(d, i), offset) + rest == Tabs(d) + s;
    TabsStop(d, s);
    var tail := TailOf(i, offset, rest);
    NotNested(i, tail);
    TagRoundTrip(d, i, offset, rest);
  }

  /** Every message is read back from its characters, whatever follows them. */
  lemma {:induction false} MessageRoundTrip(m: Message, offset: int, rest: string)
    requires CleanMessage(m)
    ensures ScanMessage(Text(m, offset) + rest, offset) == Some((m, rest))
  {
    hide Text, ScanMessage;
    match m
    case NestedOpen(d) => OpenRoundTrip(d, offset, rest);
    case NestedClose(d) => CloseRoundTrip(d, offset, rest);
    case Tag(d, i) => StateRoundTrip(d, i, offset, rest);
  }

  lemma {:induction false} TailOf(i: Info, offset: int, rest: string) returns (tail: string)
    ensures "<" + Opening(i, offset) + Closing(i) + rest == "<" + (i.name + " " + tail)
  {
    hide Stamp, Closing;
    var back := i.attributes + " time='" + Stamp(i.start, offset) + "'" + " end='" + Stamp(i.end, offset) + "'";
    assert Opening(i, offset) == i.name + " " + back;
    tail := back + Closing(i) + rest;
  }

  lemma {:induction false} EndIsNoMessage(offset: int)
    ensures ScanMessage("</Program>\n\n", offset) == None
  {
    hide ScanOpening, ScanElements, Until;
    var s := "</Program>\n\n";
    UntilStops("</Program", '>', ">\n\n");
    assert s == "</Program" + ">\n\n";
    assert s[1..9] == "/Program" && s[8] == 'm';
    NoTime("/Program", offset);
    assert LeadingTabs(s) == 0 && s[0..] == s;
    assert ScanTag(0, s, offset) == None;
    NestedMarks(s);
  }

  lemma {:induction false} NoTime(s: string, offset: int)
    requires s != "" && s[|s| - 1] != '\''
    ensures ScanOpening(s, offset) == None
  {
  }

  lemma {:induction false} AllTextFirst(ms: seq<Message>, offset: int)
    requires ms != []
    ensures AllText(ms, offset) == Text(ms[0], offset) + AllText(ms[1..], offset)
  {
    hide Text;
    var n := |ms| - 1;
    if n == 0 {
      assert ms[..0] == [] && ms[1..] == [];
    } else {
      AllTextFirst(ms[..n], offset);
      assert ms[..n][1..] == ms[1..][..n - 1];
      assert Text(ms[0], offset) + AllText(ms[1..][..n - 1], offset) + Text(ms[n], offset)
          == Text(ms[0], offset) + (AllText(ms[1..][..n - 1], offset) + Text(ms[n], offset));
    }
  }

  /** From the text of messages, up to the end of the program, the same messages are read. */
  lemma {:induction false} AllTextRoundTrip(ms: seq<Message>, offset: int)
    requires forall m | m in ms :: CleanMessage(m)
    ensures ScanAll(AllText(ms, offset) + "</Program>\n\n", offset) == Some(ms)
  {
    hide Text, ScanMessage, CleanMessage;
    var end := "</Program>\n\n";
    if ms == [] {
      assert "" + end == end;
    } else {
      var rest := AllText(ms[1..], offset) + end;
      AllTextFirst(ms, offset);
      assert AllText(ms, offset) + end == Text(ms[0], offset) + rest;
      assert ms[0] in ms;
      MessageRoundTrip(ms[0], offset, rest);
      EndIsNoMessage(offset);
      AllTextRoundTrip(ms[1..], offset);
      assert [ms[0]] + ms[1..] == ms;
    }
  }

  lemma {:induction false} DigitsOnly(s: string, c: char)
    requires !IsDigit(c) && forall x | x in s :: IsDigit(x)
    ensures c !in s
  {
  }

  /** Behind the creation time. */
  function ProgramTagTail(mhz: nat, model: string): string {
    "' processorSpeedinMHZ='" + Natural(mhz) + "' processorModelName='" + model + "'>"
  }

  lemma {:induction false} ProgramTagParts(sec: nat, mhz: nat, model: string, rest: string)
    ensures var mark, s := "<Program timeAdjustment='", Natural(sec) + ProgramTagTail(mhz, model) + ("\n" + rest);
      var file := ProgramTag(sec, mhz, model) + rest;
      mark <= file && file[|mark|..] == s
  {
    hide Natural;
    var mark, s := "<Program timeAdjustment='", Natural(sec) + ProgramTagTail(mhz, model) + ("\n" + rest);
    assert ProgramTag(sec, mhz, model) + rest == mark + s;
  }

  lemma {:induction false} ProgramLine(sec: nat, mhz: nat, model: string)
    requires '\n' !in model
    ensures '\n' !in Natural(sec) + ProgramTagTail(mhz, model)
  {
    DigitsOnly(Natural(sec), '\n');
    DigitsOnly(Natural(mhz), '\n');
    hide Natural;
  }

  lemma {:induction false} ProgramTagRoundTrip(sec: nat, mhz: nat, model: string, rest: string)
    requires '\n' !in model
    ensures ReadTrace(ProgramTag(sec, mhz, model) + rest)
         == var ms := ScanAll(rest, sec); if ms.None? then None else Reader.Decode(ms.value)
  {
    hide Natural, ScanAll, Reader.Decode, Decimals.Value, ProgramTag, Digits, Until;
    var line := Natural(sec) + ProgramTagTail(mhz, model);
    var s := line + ("\n" + rest);
    ProgramTagParts(sec, mhz, model, rest);
    ProgramLine(sec, mhz, model);
    UntilStops(line, '\n', "\n" + rest);
    assert s[|line| + 1..] == rest;
    var tail := ProgramTagTail(mhz, model) + ("\n" + rest);
    assert tail[0] == '\'' && s == Natural(sec) + tail;
    DigitsStop(Natural(sec), tail);
    assert s[..|Natural(sec)|] == Natural(sec);
    ValueOfNatural(sec);
  }

  /** The messages of a forest are read back from its file, and the forest from them. */
  lemma {:induction false} FileDeterminesForest(f: Forest, sec: nat, mhz: nat, model: string)
    requires '\n' !in model && forall m | m in Render(f, 0) :: CleanMessage(m)
    ensures ReadTrace(ProgramTag(sec, mhz, model) + AllText(Render(f, 0), sec) + "</Program>\n\n") == Some(f)
  {
    hide ReadTrace, ScanAll, ProgramTag, AllText, Render, Reader.Decode, CleanMessage;
    var ms := Render(f, 0);
    var rest := AllText(ms, sec) + "</Program>\n\n";
    assert ProgramTag(sec, mhz, model) + AllText(ms, sec) + "</Program>\n\n" == ProgramTag(sec, mhz, model) + rest;
    ProgramTagRoundTrip(sec, mhz, model, rest);
    AllTextRoundTrip(ms, sec);
    Reader.DecodeRender(f);
  }

  // ---- Sessions ----

  /** What a session records: the calls of its enabled phases, down to each one's depth limit, one after the other. */
  function Logged(ps: seq<Phase>): Forest {
    if ps == [] then Empty
    else
      var p := ps[0];
      Reader.Append(if p.enabled then Prune(Calls(Parse(p.es).0, 0), p.max) else Empty, Logged(ps[1..]))
  }

  lemma {:induction false} OutputsAreRendered(ps: seq<Phase>)
    ensures Outputs(ps) == Render(Logged(ps), 0)
  {
    if ps != [] {
      hide Render;
      var p := ps[0];
      OutputsAreRendered(ps[1..]);
      var f := if p.enabled then Prune(Calls(Parse(p.es).0, 0), p.max) else Empty;
      Reader.RenderAppend(f, Logged(ps[1..]), 0);
      assert Output(p) == Render(f, 0);
    }
  }

  /** What a program hands over does not look like markup. */
  predicate CleanEvent(e: Event) {
    match e
    case Start(name, _) => ' ' !in name && '>' !in name
    case Attribute(text) => '>' !in text
    case Element(name, value) => '<' !in name && '<' !in value && (name != "" ==> name[0] != '/')
    case End(_) => true
  }

  predicate CleanEvents(es: seq<Event>) { forall i | 0 <= i < |es| :: CleanEvent(es[i]) }

  predicate CleanBody(b: Body) {
    match b
    case Return => true
    case Note(text, rest) => CleanEvent(Attribute(text)) && CleanBody(rest)
    case Item(name, value, rest) => CleanEvent(Element(name, value)) && CleanBody(rest)
    case Call(name, start, body, _, rest) => CleanEvent(Start(name, start)) && CleanBody(body) && CleanBody(rest)
  }

  predicate CleanForest(f: Forest) { f.Tree? ==> Clean(f.info) && CleanForest(f.children) && CleanForest(f.next) }

  lemma {:induction false} CleanSuffix(es: seq<Event>, k: nat)
    requires CleanEvents(es) && k <= |es|
    ensures CleanEvents(es[k..])
  {
  }

  lemma {:induction false} CleanParse(es: seq<Event>)
    requires CleanEvents(es)
    ensures CleanBody(Parse(es).0) && CleanEvents(Parse(es).1)
    decreases |es|
  {
    hide CleanEvent;
    if es != [] {
      assert CleanEvent(es[0]);
      CleanSuffix(es, 1);
      CleanParse(es[1..]);
      if es[0].Start? {
        var after := Parse(es[1..]).1;
        if after != [] {
          CleanSuffix(after, 1);
          CleanParse(after[1..]);
        }
      }
    }
  }

  lemma {:induction false} CleanAttributes(b: Body)
    requires CleanBody(b)
    ensures '>' !in Attributes(b)
  {
    if !b.Return? { CleanAttributes(b.rest); }
  }

  /** No closing tag, and none begun at the end. */
  predicate NoClosing(s: string) {
    && (forall k | 0 <= k < |s| - 1 :: !(s[k] == '<' && s[k + 1] == '/'))
    && (s != "" ==> s[|s| - 1] != '<')
  }

  lemma {:induction false} NoClosingJoin(s: string, t: string)
    requires NoClosing(s) && NoClosing(t)
    ensures NoClosing(s + t)
  {
    forall k | 0 <= k < |s + t| - 1 ensures !((s + t)[k] == '<' && (s + t)[k + 1] == '/') {
      if k < |s| {
        assert k + 1 < |s| || s[k] == s[|s| - 1];
      } else {
        assert t[k - |s|] == (s + t)[k] && t[k - |s| + 1] == (s + t)[k + 1];
      }
    }
  }

  lemma {:induction false} NoBracket(s: string)
    requires '<' !in s
    ensures NoClosing(s)
  {
  }

  lemma {:induction false} CleanElement(d: nat, name: string, value: string)
    requires CleanEvent(Element(name, value))
    ensures NoClosing(ElementText(d, name, value))
  {
    if name != "" {
      var tail := name + " " + value + "/>\n";
      assert ElementText(d, name, value) == Tabs(d + 1) + ("<" + tail);
      assert '<' !in Tabs(d + 1) && '<' !in tail;
      NoBracket(Tabs(d + 1));
      assert NoClosing("<" + tail);
      NoClosingJoin(Tabs(d + 1), "<" + tail);
    }
  }

  lemma {:induction false} CleanElements(b: Body, d: nat)
    requires CleanBody(b)
    ensures NoClosing(Elements(b, d))
  {
    hide CleanEvent, NoClosing;
    match b
    case Return => NoBracket("");
    case Item(name, value, rest) =>
      CleanElements(rest, d);
      CleanElement(d, name, value);
      NoClosingJoin(ElementText(d, name, value), Elements(rest, d));
    case _ => CleanElements(b.rest, d);
  }

  lemma {:induction false} CleanCalls(b: Body, d: nat)
    requires CleanBody(b)
    ensures CleanForest(Calls(b, d))
  {
    match b
    case Return =>
    case Call(name, start, body, end, rest) =>
      CleanCalls(body, d + 1);
      CleanCalls(rest, d);
      CleanAttributes(body);
      CleanElements(body, d);
    case _ => CleanCalls(b.rest, d);
  }

  lemma {:induction false} CleanPrune(f: Forest, levels: int)
    requires CleanForest(f)
    ensures CleanForest(Prune(f, levels))
  {
    hide Clean;
    if f.Tree? {
      CleanPrune(f.children, levels - 1);
      CleanPrune(f.next, levels);
    }
  }

  lemma {:induction false} CleanAppend(f: Forest, g: Forest)
    requires CleanForest(f) && CleanForest(g)
    ensures CleanForest(Reader.Append(f, g))
  {
    hide Clean;
    if f.Tree? { CleanAppend(f.next, g); }
  }

  lemma {:induction false} CleanRender(f: Forest, d: nat)
    requires CleanForest(f)
    ensures forall m | m in Render(f, d) :: CleanMessage(m)
  {
    hide Clean;
    if f.Tree? {
      CleanRender(f.children, d + 1);
      CleanRender(f.next, d);
    }
  }

  lemma {:induction false} CleanLogged(ps: seq<Phase>)
    requires forall p | p in ps :: CleanEvents(p.es)
    ensures CleanForest(Logged(ps))
  {
    hide CleanEvents, CleanBody, Clean;
    if ps != [] {
      var p := ps[0];
      assert p in ps;
      CleanLogged(ps[1..]);
      CleanParse(p.es);
      CleanCalls(Parse(p.es).0, 0);
      CleanPrune(Calls(Parse(p.es).0, 0), p.max);
      CleanAppend(if p.enabled then Prune(Calls(Parse(p.es).0, 0), p.max) else Empty, Logged(ps[1..]));
    }
  }

  /** From characters alone: the file of a session tells the recorded calls with their names, attributes,
      elements and absolute times, whatever the settings were, when nothing that was handed over looks like markup. */
  lemma {:induction false} SessionIsReadable(ps: seq<Phase>, sec: nat, mhz: nat, model: string)
    requires '\n' !in model && forall p | p in ps :: CleanEvents(p.es)
    ensures ReadTrace(ProgramTag(sec, mhz, model) + AllText(Outputs(ps), sec) + "</Program>\n\n") == Some(Logged(ps))
  {
    hide ReadTrace, ProgramTag, AllText, Render, CleanForest, CleanMessage;
    OutputsAreRendered(ps);
    CleanLogged(ps);
    CleanRender(Logged(ps), 0);
    FileDeterminesForest(Logged(ps), sec, mhz, model);
  }

  // ---- What the recorded calls are ----

  /** The starts and ends that a forest tells, in the order in which they happened. */
  function Marks(f: Forest): seq<Event> {
    match f
    case Empty => []
    case Tree(i, c, n) => [Start(i.name, i.start)] + Marks(c) + [End(i.end)] + Marks(n)
  }

  /** The starts and ends of a run that belong to its uppermost levels; `d` states are open. */
  function Above(es: seq<Event>, d: int, max: int): seq<Event>
    decreases |es|
  {
    if es == [] then []
    else match es[0]
      case Start(_, _) => (if d < max then [es[0]] else []) + Above(es[1..], d + 1, max)
      case End(_) => (if d <= max then [es[0]] else []) + Above(es[1..], d - 1, max)
      case _ => Above(es[1..], d, max)
  }

  lemma {:induction false} AboveFirst(e: Event, es: seq<Event>, d: int, max: int)
    ensures Above([e] + es, d, max)
      == match e
         case Start(_, _) => (if d < max then [e] else []) + Above(es, d + 1, max)
         case End(_) => (if d <= max then [e] else []) + Above(es, d - 1, max)
         case _ => Above(es, d, max)
  {
    assert ([e] + es)[1..] == es;
  }

  lemma {:induction false} AboveBody(b: Body, k: nat, d: int, max: int, tail: seq<Event>)
    ensures Above(Events(b) + tail, d, max) == Marks(Prune(Calls(b, k), max - d)) + Above(tail, d, max)
    decreases b
  {
    hide Above, Attributes, Elements;
    match b
    case Return => assert [] + tail == tail;
    case Note(text, rest) =>
      assert Events(b) + tail == [Attribute(text)] + (Events(rest) + tail);
      AboveFirst(Attribute(text), Events(rest) + tail, d, max);
      AboveBody(rest, k, d, max, tail);
    case Item(name, value, rest) =>
      assert Events(b) + tail == [Element(name, value)] + (Events(rest) + tail);
      AboveFirst(Element(name, value), Events(rest) + tail, d, max);
      AboveBody(rest, k, d, max, tail);
    case Call(name, start, body, end, rest) =>
      hide Events, Marks, Prune, Calls;
      var later := Events(rest) + tail;
      AboveBody(body, k + 1, d + 1, max, [End(end)] + later);
      AboveBody(rest, k, d, max, tail);
      var inner, outer := Marks(Prune(Calls(body, k + 1), max - d - 1)), Marks(Prune(Calls(rest, k), max - d));
      AboveCall(name, start, end, Events(body), inner, later, d, max);
      EventsOfCall(b, tail);
      MarksOfCall(b, k, max - d);
      if d < max {
        InOrder(Start(name, start), inner, End(end), outer, Above(tail, d, max));
      }
  }

  lemma {:induction false} EventsOfCall(b: Body, tail: seq<Event>)
    requires b.Call?
    ensures Events(b) + tail == [Start(b.name, b.start)] + (Events(b.body) + ([End(b.end)] + (Events(b.rest) + tail)))
  {
    InOrder(Start(b.name, b.start), Events(b.body), End(b.end), Events(b.rest), tail);
  }

  lemma {:induction false} AboveCall(name: string, start: Time, end: Time, es: seq<Event>, inner: seq<Event>, later: seq<Event>, d: int, max: int)
    requires Above(es + ([End(end)] + later), d + 1, max) == inner + Above([End(end)] + later, d + 1, max)
    ensures Above([Start(name, start)] + (es + ([End(end)] + later)), d, max)
      == if d < max then [Start(name, start)] + (inner + ([End(end)] + Above(later, d, max))) else inner + Above(later, d, max)
  {
    hide Above;
    AboveFirst(Start(name, start), es + ([End(end)] + later), d, max);
    AboveFirst(End(end), later, d + 1, max);
    assert [] + (inner + ([] + Above(later, d, max))) == inner + Above(later, d, max);
  }

  lemma {:induction false} InOrder(a: Event, x: seq<Event>, b: Event, y: seq<Event>, z: seq<Event>)
    ensures [a] + x + [b] + y + z == [a] + (x + ([b] + (y + z)))
  {
  }

  lemma {:induction false} MarksOfCall(b: Body, k: nat, levels: int)
    requires b.Call?
    ensures levels > 0 ==>
      Marks(Prune(Calls(b, k), levels))
        == [Start(b.name, b.start)] + Marks(Prune(Calls(b.body, k + 1), levels - 1)) + [End(b.end)] + Marks(Prune(Calls(b.rest, k), levels))
    ensures levels <= 0 ==>
      && Marks(Prune(Calls(b, k), levels)) == [] && Marks(Prune(Calls(b.body, k + 1), levels - 1)) == []
      && Marks(Prune(Calls(b.rest, k), levels)) == []
  {
    hide Attributes, Elements;
  }

  /** The recorded calls are the run's own: down to the depth limit every start and every end, with its name
      and its time, in order. */
  lemma {:induction false} CallsAreTheRuns(es: seq<Event>, max: int)
    requires Balanced(es, 0)
    ensures Marks(Prune(Calls(Parse(es).0, 0), max)) == Above(es, 0, max)
  {
    hide Above, Marks, Prune, Calls;
    BalancedRunIsProgram(es);
    var b := Parse(es).0;
    AboveBody(b, 0, 0, max, []);
    assert Events(b) + [] == es;
    NoneAbove(max);
    assert Marks(Prune(Calls(b, 0), max)) + [] == Marks(Prune(Calls(b, 0), max));
  }

  lemma {:induction false} NoneAbove(max: int)
    ensures Above([], 0, max) == []
  {
  }

  /** Some state at this depth starts or ends. */
  predicate Reaches(es: seq<Event>, d: int, depth: int)
    decreases |es|
  {
    es != [] && match es[0]
      case Start(_, _) => d == depth || Reaches(es[1..], d + 1, depth)
      case End(_) => d == depth + 1 || Reaches(es[1..], d - 1, depth)
      case _ => Reaches(es[1..], d, depth)
  }

  lemma {:induction false} OneLevelMore(es: seq<Event>, d: int, depth: int)
    ensures !Reaches(es, d, depth) ==> Above(es, d, depth) == Above(es, d, depth + 1)
    ensures Reaches(es, d, depth) ==> |Above(es, d, depth)| < |Above(es, d, depth + 1)|
    ensures |Above(es, d, depth)| <= |Above(es, d, depth + 1)|
    decreases |es|
  {
    if es != [] {
      match es[0]
      case Start(_, _) => OneLevelMore(es[1..], d + 1, depth);
      case End(_) => OneLevelMore(es[1..], d - 1, depth);
      case _ => OneLevelMore(es[1..], d, depth);
    }
  }

  /** A depth limit is documented to record the states down to that depth, the uppermost ones with a limit of 0.
      It records one level less, and what is documented exactly when no state is nested that deep. */
  lemma {:induction false} DepthLimit(es: seq<Event>, depth: int)
    requires Balanced(es, 0)
    ensures Marks(Prune(Calls(Parse(es).0, 0), depth)) == Above(es, 0, depth + 1) <==> !Reaches(es, 0, depth)
  {
    hide Above, Marks, Prune, Calls;
    CallsAreTheRuns(es, depth);
    OneLevelMore(es, 0, depth);
  }

  lemma {:induction false} MarksAppend(f: Forest, g: Forest)
    ensures Marks(Reader.Append(f, g)) == Marks(f) + Marks(g)
  {
    if f.Tree? {
      MarksAppend(f.next, g);
      var x := [Start(f.info.name, f.info.start)] + Marks(f.children) + [End(f.info.end)];
      assert x + (Marks(f.next) + Marks(g)) == x + Marks(f.next) + Marks(g);
    } else {
      assert [] + Marks(g) == Marks(g);
    }
  }

  /** The starts and ends that a session makes while logging is on, above each phase's depth limit. */
  function SessionMarks(ps: seq<Phase>): seq<Event> {
    if ps == [] then [] else (if ps[0].enabled then Above(ps[0].es, 0, ps[0].max) else []) + SessionMarks(ps[1..])
  }

  lemma {:induction false} SessionIsTheRuns(ps: seq<Phase>)
    requires forall p | p in ps :: Balanced(p.es, 0)
    ensures Marks(Logged(ps)) == SessionMarks(ps)
  {
    hide Prune, Calls, Above, Balanced;
    if ps != [] {
      var p := ps[0];
      assert p in ps;
      SessionIsTheRuns(ps[1..]);
      if p.enabled {
        CallsAreTheRuns(p.es, p.max);
      }
      MarksAppend(if p.enabled then Prune(Calls(Parse(p.es).0, 0), p.max) else Empty, Logged(ps[1..]));
    }
  }


  // ---- What attributes and elements hold ----

  function Notes(b: Body): seq<string> {
    match b
    case Return => []
    case Note(text, rest) => [text] + Notes(rest)
    case _ => Notes(b.rest)
  }

  /** The elements that are not refused. */
  function Items(b: Body): seq<(string, string)> {
    match b
    case Return => []
    case Item(name, value, rest) => (if name == "" then [] else [(name, value)]) + Items(rest)
    case _ => Items(b.rest)
  }

  /** Cuts off the attributes' texts at the blanks behind them. */
  function ScanNotes(s: string): seq<string>
    decreases |s|
  {
    var n := Until(s, ' ');
    if n == |s| then [] else [s[..n]] + ScanNotes(s[n + 1..])
  }

  /** The tabs of a line tell the depth, the first blank behind them ends the name. */
  function ScanItem(line: string, d: nat): Option<(string, string)> {
    var k := LeadingTabs(line);
    var t := line[k..];
    var i := Until(t, ' ');
    if k != d + 1 || i == |t| || |t| < i + 3 || t[0] != '<' || i == 0 || t[|t| - 2..] != "/>" then None
    else Some((t[1..i], t[i + 1..|t| - 2]))
  }

  /** Elements, one to a line. */
  function ScanItems(s: string, d: nat): Option<seq<(string, string)>>
    decreases |s|
  {
    if s == "" then Some([])
    else
      var n := Until(s, '\n');
      if n == |s| then None
      else
        var (item, rest) := (ScanItem(s[..n], d), ScanItems(s[n + 1..], d));
        if item.None? || rest.None? then None else Some([item.value] + rest.value)
  }

  /** A state's attributes are its notes in order, and can be told apart again when none holds a blank. */
  lemma {:induction false} NotesRoundTrip(b: Body)
    requires forall s | s in Notes(b) :: ' ' !in s
    ensures ScanNotes(Attributes(b)) == Notes(b)
  {
    match b
    case Return =>
    case Note(text, rest) =>
      assert Notes(b)[0] == text;
      assert forall s | s in Notes(rest) :: s in Notes(b);
      NotesRoundTrip(rest);
      var s := text + (" " + Attributes(rest));
      assert Attributes(b) == s;
      UntilStops(text, ' ', " " + Attributes(rest));
      assert s[..|text|] == text && s[|text| + 1..] == Attributes(rest);
    case _ => NotesRoundTrip(b.rest);
  }

  predicate PlainItem(item: (string, string)) { ' ' !in item.0 && '\n' !in item.0 && '\n' !in item.1 }

  /** A line of an element without its end. */
  function ItemText(name: string, value: string): string { "<" + name + (" " + value + "/>") }

  lemma {:induction false} ItemScanned(d: nat, name: string, value: string)
    requires ' ' !in name && name != ""
    ensures ScanItem(Tabs(d + 1) + ItemText(name, value), d) == Some((name, value))
  {
    hide Tabs;
    var t := ItemText(name, value);
    TabsStop(d + 1, t);
    UntilStops("<" + name, ' ', " " + value + "/>");
    var i := |name| + 1;
    assert t[1..i] == name && t[i + 1..|t| - 2] == value && t[|t| - 2..] == "/>";
  }

  lemma {:induction false} NoLine(n: nat, name: string, value: string)
    requires '\n' !in name && '\n' !in value
    ensures '\n' !in Tabs(n) + ItemText(name, value)
  {
  }

  lemma {:induction false} ItemLine(d: nat, name: string, value: string, rest: string)
    requires PlainItem((name, value)) && name != ""
    ensures var s := ElementText(d, name, value) + rest;
      ScanItems(s, d) == var r := ScanItems(rest, d); if r.None? then None else Some([(name, value)] + r.value)
  {
    NoLine(d + 1, name, value);
    ItemParts(d, name, value, rest);
    hide Tabs, ItemText, ElementText, ScanItem, Until;
    var line := Tabs(d + 1) + ItemText(name, value);
    UntilStops(line, '\n', "\n" + rest);
    var s := line + ("\n" + rest);
    assert s[..|line|] == line && s[|line| + 1..] == rest;
    ItemScanned(d, name, value);
  }

  lemma {:induction false} ItemParts(d: nat, name: string, value: string, rest: string)
    requires name != ""
    ensures ElementText(d, name, value) + rest == Tabs(d + 1) + ItemText(name, value) + ("\n" + rest)
  {
    hide Tabs;
    assert ElementText(d, name, value) == Tabs(d + 1) + ItemText(name, value) + "\n";
  }

  /** A state's elements are its items in order, one line each at its depth. */
  lemma {:induction false} ItemsRoundTrip(b: Body, d: nat)
    requires forall x | x in Items(b) :: PlainItem(x)
    ensures ScanItems(Elements(b, d), d) == Some(Items(b))
  {
    hide PlainItem;
    match b
    case Return =>
    case Item(name, value, rest) =>
      assert forall x | x in Items(rest) :: x in Items(b);
      ItemsRoundTrip(rest, d);
      if name == "" {
        assert ElementText(d, name, value) == "";
        assert "" + Elements(rest, d) == Elements(rest, d) && [] + Items(rest) == Items(rest);
      } else {
        assert Items(b)[0] == (name, value);
        ItemLine(d, name, value, Elements(rest, d));
      }
    case _ => ItemsRoundTrip(b.rest, d);
  }
}
