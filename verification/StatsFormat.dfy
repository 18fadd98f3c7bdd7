/** The statistics file: a length field, a descriptive header, a start time, and entries of
    fixed-length big-endian values, each entry with its own time. */
module StatsFormat {
  import opened Basics
  import opened Decimals

  datatype ValueType = INT32 | INT64 | UINT64 | FLOAT | DOUBLE | STRING

  function TypeLength(t: ValueType): nat {
    match t
    case INT32 => 4
    case FLOAT => 4
    case STRING => 0
    case _ => 8
  }

  function TypeName(t: ValueType): string {
    match t
    case INT32 => "INT32"
    case INT64 => "INT64"
    case UINT64 => "UINT64"
    case FLOAT => "FLOAT"
    case DOUBLE => "DOUBLE"
    case STRING => "STRING"
  }

  function Lengths(ts: seq<ValueType>): nat {
    if ts == [] then 0 else Lengths(ts[..|ts| - 1]) + TypeLength(ts[|ts| - 1])
  }

  // ---- Byte order ----

  function Power256(n: nat): nat { if n == 0 then 1 else 256 * Power256(n - 1) }

  predicate IsBytes(s: string) { forall i | 0 <= i < |s| :: s[i] as int < 256 }

  /** A bit pattern of n bytes, most significant byte first. */
  function BigEndian(bits: nat, n: nat): (s: string)
    ensures |s| == n && IsBytes(s)
  {
    if n == 0 then "" else BigEndian(bits / 256, n - 1) + [(bits % 256) as char]
  }

  function FromBigEndian(s: string): nat {
    if s == "" then 0 else 256 * FromBigEndian(s[..|s| - 1]) + s[|s| - 1] as nat
  }

  lemma {:induction false} ByteOrderRoundTrip(bits: nat, n: nat)
    requires bits < Power256(n)
    ensures FromBigEndian(BigEndian(bits, n)) == bits
  {
    if n > 0 {
      ByteOrderRoundTrip(bits / 256, n - 1);
      var s := BigEndian(bits, n);
      assert s[..n - 1] == BigEndian(bits / 256, n - 1);
    }
  }

  lemma {:induction false} Regrouped(c: nat, p: nat, r: nat, d: nat)
    ensures 256 * (c * p + r) + d == c * (256 * p) + (256 * r + d)
  {
  }

  /** The first byte is worth most. */
  lemma {:induction false} FirstByteWeighs(s: string)
    requires s != ""
    ensures FromBigEndian(s) == s[0] as nat * Power256(|s| - 1) + FromBigEndian(s[1..])
  {
    var n := |s| - 1;
    if n > 0 {
      FirstByteWeighs(s[..n]);
      assert s[..n][1..] == s[1..][..n - 1];
      Regrouped(s[0] as nat, Power256(n - 1), FromBigEndian(s[1..][..n - 1]), s[n] as nat);
    } else {
      assert s[..0] == "" && s[1..] == "";
      assert Power256(0) == 1;
    }
  }

  lemma {:induction false} BytesRoundTrip(s: string)
    requires IsBytes(s)
    ensures FromBigEndian(s) < Power256(|s|)
    ensures BigEndian(FromBigEndian(s), |s|) == s
  {
    if s != "" {
      var n := |s| - 1;
      BytesRoundTrip(s[..n]);
      assert s == s[..n] + [s[n]];
    }
  }

  // ---- Values and entries ----

  /** Two 32-bit patterns. */
  datatype Timestamp = Timestamp(sec: nat, nsec: nat) {
    predicate Valid() { sec < Power256(4) && nsec < Power256(4) }
    function Bytes(): (s: string) ensures |s| == 8 { BigEndian(sec, 4) + BigEndian(nsec, 4) }
  }

  /** A value of some type as its bit pattern. */
  datatype Datum = Datum(kind: ValueType, bits: nat) {
    predicate Valid() { kind != STRING && bits < Power256(TypeLength(kind)) }
    function Bytes(): (s: string) ensures |s| == TypeLength(kind) { BigEndian(bits, TypeLength(kind)) }
  }

  datatype Entry = Entry(time: Timestamp, values: seq<Datum>)

  function ValuesBytes(vs: seq<Datum>): string {
    if vs == [] then "" else ValuesBytes(vs[..|vs| - 1]) + vs[|vs| - 1].Bytes()
  }

  function EntryBytes(e: Entry): string { e.time.Bytes() + ValuesBytes(e.values) }

  function EntriesBytes(es: seq<Entry>): string {
    if es == [] then "" else EntriesBytes(es[..|es| - 1]) + EntryBytes(es[|es| - 1])
  }

  predicate OfTypes(vs: seq<Datum>, ts: seq<ValueType>) {
    |vs| == |ts| && forall i | 0 <= i < |vs| :: vs[i].Valid() && vs[i].kind == ts[i]
  }

  predicate Complete(e: Entry, ts: seq<ValueType>) { e.time.Valid() && OfTypes(e.values, ts) }

  // ---- The file ----

  const HEADER_DIGITS := 5
  const HEADER_BUFFER := 100005
  const ENTRY_BUFFER := 1024

  /** The header with its length field in front. */
  function HeaderBytes(header: string): string { Padded(|header|, HEADER_DIGITS) + "\n" + header }

  function FileBytes(header: string, start: Timestamp, es: seq<Entry>): string {
    HeaderBytes(header) + start.Bytes() + EntriesBytes(es)
  }

  // ---- The reader ----

  predicate IsSpace(c: char) { c == ' ' || c == '\t' || c == '\n' || c == '\r' || c as int in {11, 12} }

  function SkipSpace(s: string): string {
    if s != "" && IsSpace(s[0]) then SkipSpace(s[1..]) else s
  }

  /** Scans the length field, with blanks around it: the header and what follows it, if the field can be
      read and the header is complete. */
  function AtHeader(file: string): Option<(string, string)> {
    var field := SkipSpace(file);
    var n := Digits(field);
    if n == 0 then None
    else
      var rest := SkipSpace(field[n..]);
      var length := Decimals.Value(field[..n]);
      if |rest| < length then None else Some((rest[..length], rest[length..]))
  }

  /** Steps over the header. */
  function AfterHeader(file: string): Option<string> {
    match AtHeader(file)
    case None => None
    case Some(parts) => Some(parts.1)
  }

  function TimestampOf(s: string): Timestamp
    requires |s| == 8
  {
    Timestamp(FromBigEndian(s[..4]), FromBigEndian(s[4..]))
  }

  function ReadValues(s: string, ts: seq<ValueType>): seq<Datum>
    requires |s| == Lengths(ts)
    decreases |ts|
  {
    if ts == [] then []
    else
      var t := ts[|ts| - 1];
      var n := |s| - TypeLength(t);
      ReadValues(s[..n], ts[..|ts| - 1]) + [Datum(t, FromBigEndian(s[n..]))]
  }

  /** What the reader reports: the start time, the complete entries, and whether it ends normally. */
  datatype Report = Report(start: Option<Timestamp>, entries: seq<Entry>, normal: bool)

  function Before(e: Entry, r: Report): Report { r.(entries := [e] + r.entries) }

  /** Reads entries up to the end of the file. An incomplete entry is an error, except that a tail
      shorter than the first half of a timestamp counts as the end. */
  function ReadEntries(start: Timestamp, s: string, ts: seq<ValueType>): Report
    decreases |s|
  {
    var n := 8 + Lengths(ts);
    if |s| < n then Report(Some(start), [], |s| < 4)
    else Before(Entry(TimestampOf(s[..8]), ReadValues(s[8..n], ts)), ReadEntries(start, s[n..], ts))
  }

  /** What the reader finds in a file when it is told the value types. */
  function ReadFile(file: string, ts: seq<ValueType>): Report {
    match AfterHeader(file)
    case None => Report(None, [], false)
    case Some(body) =>
      if |body| < 8 then Report(None, [], |body| < 4)
      else ReadEntries(TimestampOf(body[..8]), body[8..], ts)
  }

  // ---- Reading is the inverse of writing ----

  lemma {:induction false} TimestampRoundTrip(t: Timestamp)
    requires t.Valid()
    ensures TimestampOf(t.Bytes()) == t
  {
    hide BigEndian, FromBigEndian, Power256, TypeLength;
    var s := t.Bytes();
    assert s[..4] == BigEndian(t.sec, 4) && s[4..] == BigEndian(t.nsec, 4);
    ByteOrderRoundTrip(t.sec, 4);
    ByteOrderRoundTrip(t.nsec, 4);
  }

  /** The seconds come before the fraction. */
  lemma {:induction false} SecondsFirst(t: Timestamp)
    requires t.Valid()
    ensures FromBigEndian(t.Bytes()[..4]) == t.sec && FromBigEndian(t.Bytes()[4..]) == t.nsec
  {
    hide BigEndian, FromBigEndian, Power256;
    assert t.Bytes()[..4] == BigEndian(t.sec, 4) && t.Bytes()[4..] == BigEndian(t.nsec, 4);
    ByteOrderRoundTrip(t.sec, 4);
    ByteOrderRoundTrip(t.nsec, 4);
  }

  lemma {:induction false} ValuesRoundTrip(vs: seq<Datum>, ts: seq<ValueType>)
    requires OfTypes(vs, ts)
    ensures |ValuesBytes(vs)| == Lengths(ts)
    ensures ReadValues(ValuesBytes(vs), ts) == vs
  {
    hide BigEndian, FromBigEndian, Power256, TypeLength;
    if vs != [] {
      var n := |vs| - 1;
      ValuesRoundTrip(vs[..n], ts[..n]);
      ByteOrderRoundTrip(vs[n].bits, TypeLength(vs[n].kind));
      var s := ValuesBytes(vs);
      var m := |s| - TypeLength(ts[n]);
      assert s[..m] == ValuesBytes(vs[..n]) && s[m..] == vs[n].Bytes();
    }
  }

  /** Bytes of the right number are the bytes of exactly the values they are read as. */
  lemma {:induction false} ReadValuesRoundTrip(s: string, ts: seq<ValueType>)
    requires |s| == Lengths(ts) && STRING !in ts
    requires IsBytes(s)
    ensures OfTypes(ReadValues(s, ts), ts) && ValuesBytes(ReadValues(s, ts)) == s
    decreases |ts|
  {
    if ts != [] {
      var i := |ts| - 1;
      var n := |s| - TypeLength(ts[i]);
      assert ts[i] in ts;
      ReadValuesRoundTrip(s[..n], ts[..i]);
      ReadLast(s, n, ts);
    }
  }

  lemma {:induction false} ReadDatum(s: string, t: ValueType)
    requires |s| == TypeLength(t) && t != STRING && IsBytes(s)
    ensures var d := Datum(t, FromBigEndian(s)); d.Valid() && d.Bytes() == s
  {
    hide BigEndian, FromBigEndian, Power256;
    BytesRoundTrip(s);
  }

  lemma {:induction false} ReadLast(s: string, n: nat, ts: seq<ValueType>)
    requires |s| == Lengths(ts) && ts != [] && IsBytes(s) && ts[|ts| - 1] != STRING
    requires n == |s| - TypeLength(ts[|ts| - 1])
    requires var before := ReadValues(s[..n], ts[..|ts| - 1]);
      OfTypes(before, ts[..|ts| - 1]) && ValuesBytes(before) == s[..n]
    ensures OfTypes(ReadValues(s, ts), ts) && ValuesBytes(ReadValues(s, ts)) == s
  {
    hide FromBigEndian, TypeLength, Datum.Bytes, Datum.Valid;
    var i := |ts| - 1;
    ReadDatum(s[n..], ts[i]);
    var d := Datum(ts[i], FromBigEndian(s[n..]));
    var vs := ReadValues(s, ts);
    assert vs == ReadValues(s[..n], ts[..i]) + [d];
    assert vs[..i] == ReadValues(s[..n], ts[..i]);
    assert s == s[..n] + s[n..];
  }

  lemma {:induction false} EntriesFirst(es: seq<Entry>)
    requires es != []
    ensures EntriesBytes(es) == EntryBytes(es[0]) + EntriesBytes(es[1..])
  {
    hide EntryBytes;
    if |es| == 1 {
      assert es[..0] == [] && es[1..] == [];
      assert EntriesBytes(es[..0]) == "" && EntriesBytes(es[1..]) == "";
      assert "" + EntryBytes(es[0]) == EntryBytes(es[0]) == EntryBytes(es[0]) + "";
    } else {
      var n := |es| - 1;
      EntriesFirst(es[..n]);
      assert es[..n][1..] == es[1..][..n - 1];
      Regroup(EntryBytes(es[0]), EntriesBytes(es[1..][..n - 1]), EntryBytes(es[n]));
    }
  }

  lemma {:induction false} Regroup(x: string, y: string, z: string)
    ensures (x + y) + z == x + (y + z)
  {
  }

  /** The length of an entry in the file. */
  function EntryLength(ts: seq<ValueType>): nat { 8 + Lengths(ts) }

  lemma {:induction false} ReadFirst(start: Timestamp, e: Entry, rest: string, ts: seq<ValueType>)
    requires Complete(e, ts)
    ensures ReadEntries(start, EntryBytes(e) + rest, ts) == Before(e, ReadEntries(start, rest, ts))
  {
    hide BigEndian, FromBigEndian, Power256, TypeLength;
    ValuesRoundTrip(e.values, ts);
    TimestampRoundTrip(e.time);
    var s, n := EntryBytes(e) + rest, EntryLength(ts);
    assert s[..8] == e.time.Bytes() && s[8..n] == ValuesBytes(e.values) && s[n..] == rest;
  }

  /** Of complete entries and a shorter tail the reader reports exactly the complete ones, and it
      notices the tail exactly when that has four bytes or more. */
  lemma {:induction false} CutEntries(start: Timestamp, es: seq<Entry>, ts: seq<ValueType>, tail: string)
    requires forall e | e in es :: Complete(e, ts)
    requires |tail| < EntryLength(ts)
    ensures ReadEntries(start, EntriesBytes(es) + tail, ts) == Report(Some(start), es, |tail| < 4)
    decreases |es|
  {
    hide EntryBytes;
    if es != [] {
      EntriesFirst(es);
      assert es[0] in es;
      var rest := EntriesBytes(es[1..]) + tail;
      assert EntriesBytes(es) + tail == EntryBytes(es[0]) + rest;
      ReadFirst(start, es[0], rest, ts);
      CutEntries(start, es[1..], ts, tail);
      assert [es[0]] + es[1..] == es;
    } else {
      assert EntriesBytes(es) + tail == tail;
    }
  }

  lemma {:induction false} TimeOfBytes(s: string)
    requires |s| == 8 && IsBytes(s)
    ensures TimestampOf(s).Valid() && TimestampOf(s).Bytes() == s
  {
    hide BigEndian, FromBigEndian, Power256;
    BytesRoundTrip(s[..4]);
    BytesRoundTrip(s[4..]);
    assert s[..4] + s[4..] == s;
  }

  lemma {:induction false} EntryOfBytes(s: string, ts: seq<ValueType>)
    requires |s| == EntryLength(ts) && IsBytes(s) && STRING !in ts
    ensures var e := Entry(TimestampOf(s[..8]), ReadValues(s[8..], ts)); Complete(e, ts) && EntryBytes(e) == s
  {
    hide TimestampOf, ReadValues, OfTypes, Timestamp.Bytes, Timestamp.Valid;
    TimeOfBytes(s[..8]);
    ReadValuesRoundTrip(s[8..], ts);
    assert s[..8] + s[8..] == s;
  }

  /** Whatever bytes stand behind the start time: they are those of the entries that are reported and a tail too
      short for one more, and the end is normal exactly when the tail is shorter than four. */
  lemma {:induction false} ReportIsTheBody(start: Timestamp, s: string, ts: seq<ValueType>) returns (tail: string)
    requires IsBytes(s) && STRING !in ts
    ensures var r := ReadEntries(start, s, ts);
      && r.start == Some(start) && (forall e | e in r.entries :: Complete(e, ts))
      && s == EntriesBytes(r.entries) + tail && |tail| < EntryLength(ts) && (r.normal <==> |tail| < 4)
    decreases |s|
  {
    hide TimestampOf, ReadValues, Complete, EntryBytes, Lengths;
    var n := EntryLength(ts);
    if |s| < n {
      tail := s;
      assert EntriesBytes([]) == "" && "" + s == s;
    } else {
      tail := ReportIsTheBody(start, s[n..], ts);
      EntryOfBytes(s[..n], ts);
      assert s[..n][..8] == s[..8] && s[..n][8..] == s[8..n];
      var e := Entry(TimestampOf(s[..8]), ReadValues(s[8..n], ts));
      var later := ReadEntries(start, s[n..], ts).entries;
      EntriesFirst([e] + later);
      assert ([e] + later)[1..] == later;
      Regroup(EntryBytes(e), EntriesBytes(later), tail);
      assert s == s[..n] + s[n..];
    }
  }

  lemma {:induction false} EntryHasLength(e: Entry, ts: seq<ValueType>)
    requires Complete(e, ts)
    ensures |EntryBytes(e)| == EntryLength(ts)
  {
    ValuesRoundTrip(e.values, ts);
  }

  /** Any beginning of the entries is some complete entries and a shorter tail. */
  lemma {:induction false} CutPoint(es: seq<Entry>, ts: seq<ValueType>, k: nat) returns (q: nat, tail: string)
    requires forall e | e in es :: Complete(e, ts)
    requires k <= |EntriesBytes(es)|
    ensures q <= |es| && |tail| < EntryLength(ts)
    ensures EntriesBytes(es)[..k] == EntriesBytes(es[..q]) + tail
    decreases |es|
  {
    hide EntryBytes, Lengths, Timestamp.Bytes, Datum.Valid;
    if k == |EntriesBytes(es)| {
      q, tail := |es|, "";
      assert es[..q] == es;
    } else {
      var n := |es| - 1;
      var before, last := EntriesBytes(es[..n]), EntryBytes(es[n]);
      assert es[n] in es;
      EntryHasLength(es[n], ts);
      if k < |before| {
        q, tail := CutPoint(es[..n], ts, k);
        assert es[..n][..q] == es[..q];
        assert (before + last)[..k] == before[..k];
      } else {
        q, tail := n, last[..k - |before|];
        assert (before + last)[..k] == before + tail;
      }
    }
  }

  /** The length field has exactly five digits exactly when the header has fewer than 100000
      characters; either way the reader finds the end of the header. A header starts with a tag. */
  lemma {:induction false} HeaderRoundTrip(header: string, body: string)
    requires header != "" && !IsSpace(header[0])
    ensures |Padded(|header|, HEADER_DIGITS)| == HEADER_DIGITS <==> |header| < 100000
    ensures AtHeader(HeaderBytes(header) + body) == Some((header, body))
    ensures AfterHeader(HeaderBytes(header) + body) == Some(body)
  {
    hide Padded, Decimals.Value;
    var field := Padded(|header|, HEADER_DIGITS);
    PaddedField(|header|, HEADER_DIGITS);
    assert Power(5) == 100000 by {
      assert Power(1) == 10 && Power(2) == 100 && Power(3) == 1000 && Power(4) == 10000;
    }
    var file := HeaderBytes(header) + body;
    var tail := "\n" + header + body;
    assert file == field + tail;
    DigitsStop(field, tail);
    assert file[..|field|] == field && file[|field|..] == tail;
    assert IsDigit(field[0]) by { assert field[0] in field; }
    assert SkipSpace(file) == file;
    assert tail[1..] == header + body;
    assert SkipSpace(tail) == SkipSpace(header + body) == header + body;
    assert (header + body)[..|header|] == header && (header + body)[|header|..] == body;
  }

  /** How many patterns a value of each type can have: 32 or 64 bits, and none to tell apart for a string. */
  lemma {:induction false} TypeWidths(t: ValueType)
    ensures Power256(TypeLength(t)) ==
      match t
      case INT32 => 0x1_0000_0000
      case FLOAT => 0x1_0000_0000
      case INT64 => 0x1_0000_0000_0000_0000
      case UINT64 => 0x1_0000_0000_0000_0000
      case DOUBLE => 0x1_0000_0000_0000_0000
      case STRING => 1
  {
    assert Power256(2) == 0x1_0000 && Power256(4) == 256 * (256 * Power256(2));
    assert Power256(6) == 256 * (256 * Power256(4)) && Power256(8) == 256 * (256 * Power256(6));
  }

  /** What the scanner steps over: blank, tabulators, newline, form feed, carriage return. */
  predicate Blanks(s: string) { forall i | 0 <= i < |s| :: s[i] == ' ' || 9 <= s[i] as int <= 13 }

  lemma {:induction false} BlanksSkipped(blanks: string, s: string)
    requires Blanks(blanks)
    ensures SkipSpace(blanks + s) == SkipSpace(s)
  {
    if blanks == "" {
      assert blanks + s == s;
    } else {
      assert (blanks + s)[1..] == blanks[1..] + s;
      assert blanks[0] == ' ' || 9 <= blanks[0] as int <= 13;
      assert '\t' as int == 9 && '\n' as int == 10 && '\r' as int == 13;
      BlanksSkipped(blanks[1..], s);
    }
  }

  /** Blanks in front of the length field do not matter; anything else but a digit there is reported. */
  lemma {:induction false} BeforeHeader(blanks: string, file: string, ts: seq<ValueType>)
    requires Blanks(blanks)
    ensures ReadFile(blanks + file, ts) == ReadFile(file, ts)
    ensures file == "" || (!Blanks(file[..1]) && !IsDigit(file[0])) ==> ReadFile(file, ts) == Report(None, [], false)
  {
    BlanksSkipped(blanks, file);
    if file != "" && IsSpace(file[0]) {
      assert '\t' as int == 9 && '\n' as int == 10 && '\r' as int == 13;
      assert Blanks(file[..1]);
    }
  }

  /** A file that is cut off inside its header is reported as broken; one that is cut off inside its start time
      holds nothing, and the cut goes unnoticed below four bytes. */
  lemma {:induction false} CutHead(header: string, start: Timestamp, ts: seq<ValueType>, k: nat)
    requires header != "" && !IsSpace(header[0]) && |header| < 100000
    requires HEADER_DIGITS <= k < HEADER_DIGITS + 1 + |header| + 8
    ensures ReadFile((HeaderBytes(header) + start.Bytes())[..k], ts) ==
      Report(None, [], HEADER_DIGITS + 1 + |header| <= k < HEADER_DIGITS + 1 + |header| + 4)
  {
    var n := HEADER_DIGITS + 1 + |header|;
    HeaderRoundTrip(header, "");
    assert |HeaderBytes(header)| == n by { hide Padded; }
    var file := (HeaderBytes(header) + start.Bytes())[..k];
    if k >= n {
      var body := start.Bytes()[..k - n];
      assert file == HeaderBytes(header) + body;
      HeaderRoundTrip(header, body);
    } else {
      assert file == HeaderBytes(header)[..k];
      CutInHeader(header, k);
    }
  }

  lemma {:induction false} CutInHeader(header: string, k: nat)
    requires header != "" && !IsSpace(header[0]) && |Padded(|header|, HEADER_DIGITS)| == HEADER_DIGITS
    requires HEADER_DIGITS <= k < HEADER_DIGITS + 1 + |header|
    ensures AtHeader(HeaderBytes(header)[..k]) == None
  {
    hide Padded, Decimals.Value;
    var field := Padded(|header|, HEADER_DIGITS);
    PaddedField(|header|, HEADER_DIGITS);
    var file := HeaderBytes(header)[..k];
    assert HeaderBytes(header) == field + ("\n" + header);
    var tail := ("\n" + header)[..k - HEADER_DIGITS];
    assert file == field + tail && file[..|field|] == field && file[|field|..] == tail;
    assert IsDigit(field[0]) by { assert field[0] in field; }
    assert SkipSpace(file) == file;
    if tail == "" {
      assert file == field;
      AllDigits(field);
    } else {
      assert tail[0] == '\n';
      DigitsStop(field, tail);
    }
    Shorter(tail);
  }

  lemma {:induction false} Shorter(s: string)
    ensures |SkipSpace(s)| <= |s| && (s != "" && IsSpace(s[0]) ==> |SkipSpace(s)| < |s|)
  {
    if s != "" && IsSpace(s[0]) { Shorter(s[1..]); }
  }

  /** A reader that is given the types recovers the start time and every time and value in order. */
  lemma {:induction false} FileRoundTrip(header: string, start: Timestamp, es: seq<Entry>, ts: seq<ValueType>)
    requires header != "" && !IsSpace(header[0])
    requires start.Valid() && forall e | e in es :: Complete(e, ts)
    ensures ReadFile(FileBytes(header, start, es), ts) == Report(Some(start), es, true)
  {
    hide BigEndian, FromBigEndian, Power256, TypeLength;
    var all := EntriesBytes(es);
    var body := start.Bytes() + all;
    assert FileBytes(header, start, es) == HeaderBytes(header) + body;
    HeaderRoundTrip(header, body);
    TimestampRoundTrip(start);
    assert body[..8] == start.Bytes() && body[8..] == all;
    assert all + "" == all;
    CutEntries(start, es, ts, "");
  }

  /** Wherever a file is cut off behind its start time, the reader recovers the entries that are
      complete, and it takes the cut for a normal end exactly when fewer than four bytes follow them. */
  lemma {:induction false} CutFile(header: string, start: Timestamp, es: seq<Entry>, ts: seq<ValueType>, k: nat)
    returns (q: nat, tail: string)
    requires header != "" && !IsSpace(header[0])
    requires start.Valid() && forall e | e in es :: Complete(e, ts)
    requires k <= |EntriesBytes(es)|
    ensures q <= |es| && |tail| < EntryLength(ts)
    ensures EntriesBytes(es)[..k] == EntriesBytes(es[..q]) + tail
    ensures ReadFile(HeaderBytes(header) + start.Bytes() + EntriesBytes(es)[..k], ts)
      == Report(Some(start), es[..q], |tail| < 4)
  {
    hide BigEndian, FromBigEndian, Power256, TypeLength;
    q, tail := CutPoint(es, ts, k);
    var part := EntriesBytes(es)[..k];
    var body := start.Bytes() + part;
    assert HeaderBytes(header) + start.Bytes() + part == HeaderBytes(header) + body;
    HeaderRoundTrip(header, body);
    TimestampRoundTrip(start);
    assert body[..8] == start.Bytes() && body[8..] == part;
    CutEntries(start, es[..q], ts, tail);
  }

  // ---- The reader's loops ----

  /** Reads the values of one entry at position `at`; false when the file ends inside. */
  method ReadOne(s: string, at: nat, ts: seq<ValueType>) returns (ok: bool, values: seq<Datum>, next: nat)
    requires at <= |s|
    ensures ok <==> at + Lengths(ts) <= |s|
    ensures ok ==> next == at + Lengths(ts) && values == ReadValues(s[at..next], ts)
  {
    hide FromBigEndian, TypeLength;
    values, next := [], at;
    for i := 0 to |ts|
      invariant next == at + Lengths(ts[..i]) && next <= |s|
      invariant values == ReadValues(s[at..next], ts[..i])
    {
      var n := TypeLength(ts[i]);
      assert ts[..i + 1][..i] == ts[..i];
      if next + n > |s| {
        LengthsGrow(ts, i + 1);
        return false, values, next;
      }
      assert s[at..next + n][..next - at] == s[at..next] && s[at..next + n][next - at..] == s[next..next + n];
      values := values + [Datum(ts[i], FromBigEndian(s[next..next + n]))];
      next := next + n;
    }
    assert ts[..|ts|] == ts;
    return true, values, next;
  }

  lemma {:induction false} LengthsGrow(ts: seq<ValueType>, i: nat)
    requires i <= |ts|
    ensures Lengths(ts[..i]) <= Lengths(ts)
    decreases |ts|
  {
    if i < |ts| {
      assert ts[..|ts| - 1][..i] == ts[..i];
      LengthsGrow(ts[..|ts| - 1], i);
    } else {
      assert ts[..i] == ts;
    }
  }

  lemma {:induction false} ReadAt(start: Timestamp, s: string, at: nat, ts: seq<ValueType>, es: seq<Entry>)
    requires at + EntryLength(ts) <= |s|
    ensures var next := at + EntryLength(ts);
      var e := Entry(TimestampOf(s[at..at + 8]), ReadValues(s[at + 8..next], ts));
      After(es, ReadEntries(start, s[at..], ts)) == After(es + [e], ReadEntries(start, s[next..], ts))
  {
    hide FromBigEndian, Power256, ReadValues, Lengths;
    var n, next := EntryLength(ts), at + EntryLength(ts);
    assert s[at..][..8] == s[at..at + 8] && s[at..][8..n] == s[at + 8..next] && s[at..][n..] == s[next..];
    var e := Entry(TimestampOf(s[at..at + 8]), ReadValues(s[at + 8..next], ts));
    var later := ReadEntries(start, s[next..], ts);
    assert es + ([e] + later.entries) == es + [e] + later.entries;
  }

  method ReadStats(file: string, ts: seq<ValueType>) returns (r: Report)
    ensures r == ReadFile(file, ts)
  {
    hide BigEndian, FromBigEndian, Power256, TypeLength, ReadValues, AfterHeader;
    var header := AfterHeader(file);
    if header.None? {
      return Report(None, [], false);
    }
    var s := header.value;
    if |s| < 8 {
      return Report(None, [], |s| < 4);
    }
    var start := TimestampOf(s[..8]);
    var at := 8;
    var es := [];
    while true
      invariant 8 <= at <= |s|
      invariant ReadEntries(start, s[8..], ts) == After(es, ReadEntries(start, s[at..], ts))
      decreases |s| - at
    {
      if at + 8 > |s| {
        return Report(Some(start), es, |s| - at < 4);
      }
      var ok, values, next := ReadOne(s, at + 8, ts);
      if !ok {
        return Report(Some(start), es, false);
      }
      ReadAt(start, s, at, ts, es);
      es := es + [Entry(TimestampOf(s[at..at + 8]), values)];
      at := next;
    }
  }

  function After(es: seq<Entry>, r: Report): Report { r.(entries := es + r.entries) }
}
