/** The detector that copies the declarations of C function definitions: a recogniser with one character
    of lookahead on top of the classifier. It finds its way back at the end of every top-level item. */
module DeclarationDetector {
  import opened Classifier

  datatype Phase = BeforeParameterList | InParameterList | AfterParameterList | Busted

  /** `cur` collects the current word or list, `ret` the current declaration, `out` the finished ones. */
  datatype Detector = Detector(
    scanner: Scanner, phase: Phase, inWhitespace: bool, spaceNeeded: bool,
    cur: string, ret: string, out: string)

  predicate IsSpace(c: char) { c == ' ' || c == '\t' || c == '\n' || c == '\r' }

  // ---- One character ----

  /** Text being written, and what the white space before the next character will become. */
  datatype Pen = Pen(text: string, inWhitespace: bool, spaceNeeded: bool)

  /** Appends a character; runs of white space become one blank or nothing. */
  function Write(p: Pen, c: char): Pen {
    if IsSpace(c) then p.(inWhitespace := true)
    else if c == ')' then Pen(p.text + ")", false, false)
    else
      var opening := c == '(' || c == '[';
      Pen(p.text + (if p.inWhitespace && p.spaceNeeded then " " else "") + [c], opening, !opening)
  }

  function WriteChar(d: Detector, c: char): Detector {
    var p := Write(Pen(d.cur, d.inWhitespace, d.spaceNeeded), c);
    d.(cur := p.text, inWhitespace := p.inWhitespace, spaceNeeded := p.spaceNeeded)
  }

  function FlushCur(d: Detector): Detector { d.(ret := d.ret + d.cur, cur := "") }

  function Reset(d: Detector): Detector { d.(cur := "", ret := "", inWhitespace := true, spaceNeeded := false) }

  function FlushReturn(d: Detector): Detector { Reset(d.(out := d.out + d.ret + ";\n")) }

  /** Before the parameter list: words are passed on one by one, without the keyword extern. */
  function InWords(d: Detector, c: char, kind: Class): Detector {
    match kind
    case Normal =>
      var a :=
        if IsSpace(c) then
          FlushCur(if Contains(d.cur, "extern") then d.(cur := "", inWhitespace := true, spaceNeeded := true) else d)
        else d;
      var b := if c == '{' then a.(phase := Busted) else a;
      var e :=
        if c == '(' then
          var f := FlushCur(b);
          f.(phase := if Contains(f.ret, "static") || Contains(f.ret, "inline") then Busted else InParameterList)
        else b;
      WriteChar(e, c)
    case CharConstant => d.(phase := Busted)
    case String => d.(phase := Busted)
    case _ => d
  }

  function InList(d: Detector, c: char, kind: Class): Detector {
    match kind
    case Normal =>
      var a := WriteChar(if c == '{' then d.(phase := Busted) else d, c);
      if d.scanner.callLevel == 0 then FlushCur(a.(phase := AfterParameterList)) else a
    case CharConstant => d.(phase := Busted)
    case String => d.(phase := Busted)
    case _ => d
  }

  function InBody(d: Detector, c: char, kind: Class, before: int): Detector {
    if kind != Normal then d
    else if before != 0 then
      if d.scanner.blockLevel == 0 then FlushReturn(d.(phase := BeforeParameterList)) else d
    else if IsSpace(c) || c == '{' then d
    else d.(phase := Busted)
  }

  function Recognise(d: Detector, c: char, kind: Class, before: int): Detector {
    match d.phase
    case BeforeParameterList => InWords(d, c, kind)
    case InParameterList => InList(d, c, kind)
    case AfterParameterList => InBody(d, c, kind, before)
    case Busted => d
  }

  /** The end of a top-level item, whatever has become of it. */
  predicate EndsItem(before: int, t: Scanner, c: char) {
    t.state == Normal && ((before == 0 && c == ';') || (before != 0 && t.blockLevel == 0))
  }

  /** Processes a character in view of the next one. */
  function Push(d: Detector, c: char, next: int): Detector {
    var t := Step(d.scanner, c, next);
    var e := Recognise(d.(scanner := t), c, t.state, d.scanner.blockLevel);
    if EndsItem(d.scanner.blockLevel, t, c) then Reset(e.(phase := BeforeParameterList)) else e
  }

  function First(text: string, last: int): int { if text != "" then text[0] as int else last }

  function Run(d: Detector, text: string, last: int): Detector
    decreases |text|
  {
    if text == "" then d else Run(Push(d, text[0], First(text[1..], last)), text[1..], last)
  }

  lemma {:induction false} RunAppend(d: Detector, a: string, b: string, last: int)
    ensures Run(d, a + b, last) == Run(Run(d, a, First(b, last)), b, last)
    decreases |a|
  {
    if a == "" {
      assert a + b == b;
    } else {
      assert (a + b)[1..] == a[1..] + b;
      RunAppend(Push(d, a[0], First(a[1..] + b, last)), a[1..], b, last);
      assert First(a[1..] + b, last) == First(a[1..], First(b, last));
    }
  }

  /** A detector between two items. */
  function Fresh(out: string, lineStart: bool): Detector {
    Detector(START.(atLineStart := lineStart), BeforeParameterList, true, false, "", "", out)
  }

  /** What is copied from a text of its own. */
  function Output(text: string): string { Run(Fresh("", true), text, EOF).out }

  // ---- The past output does not matter ----

  function Behind(out: string, d: Detector): Detector { d.(out := out + d.out) }

  lemma {:induction false} WriteBehind(out: string, d: Detector, c: char)
    ensures WriteChar(Behind(out, d), c) == Behind(out, WriteChar(d, c))
  {
  }

  lemma {:induction false} WordsBehind(out: string, d: Detector, c: char, kind: Class)
    ensures InWords(Behind(out, d), c, kind) == Behind(out, InWords(d, c, kind))
  {
    hide Contains;
  }

  lemma {:induction false} ListBehind(out: string, d: Detector, c: char, kind: Class)
    ensures InList(Behind(out, d), c, kind) == Behind(out, InList(d, c, kind))
  {
    hide WriteChar;
    WriteBehind(out, d, c);
    WriteBehind(out, d.(phase := Busted), c);
    WriteOnLine(d, c, true);
    WriteOnLine(d.(phase := Busted), c, true);
  }

  lemma {:induction false} BodyBehind(out: string, d: Detector, c: char, kind: Class, before: int)
    ensures InBody(Behind(out, d), c, kind, before) == Behind(out, InBody(d, c, kind, before))
  {
    assert out + (d.out + d.ret + ";\n") == out + d.out + d.ret + ";\n";
  }

  lemma {:induction false} PushBehind(out: string, d: Detector, c: char, next: int)
    ensures Push(Behind(out, d), c, next) == Behind(out, Push(d, c, next))
  {
    hide Step, InWords, InList, InBody;
    var t := Step(d.scanner, c, next);
    var e := d.(scanner := t);
    WordsBehind(out, e, c, t.state);
    ListBehind(out, e, c, t.state);
    BodyBehind(out, e, c, t.state, d.scanner.blockLevel);
  }

  lemma {:induction false} RunBehind(out: string, d: Detector, text: string, last: int)
    ensures Run(Behind(out, d), text, last) == Behind(out, Run(d, text, last))
    decreases |text|
  {
    hide Push;
    if text != "" {
      var next := First(text[1..], last);
      PushBehind(out, d, text[0], next);
      RunBehind(out, Push(d, text[0], next), text[1..], last);
    }
  }

  // ---- A function body has no effect of its own ----

  /** The text closes the block in which it starts, and not before its last character. */
  predicate Closes(s: Scanner, text: string)
    decreases |text|
  {
    && s.blockLevel != 0
    && text != ""
    && var t := Step(s, text[0], First(text[1..], EOF));
       if |text| == 1 then text == "}" && t.state == Normal && t.blockLevel == 0
       else Closes(t, text[1..])
  }

  /** The detector at the end of an item: ready for the next one. */
  function Ready(s: Scanner, out: string): Detector {
    Detector(s.(state := Normal, atLineStart := false, inEscape := false, backToNormal := 0, blockLevel := 0),
             BeforeParameterList, true, false, "", "", out)
  }

  /** What the end of the open block adds to the output. */
  function Gain(d: Detector): string { if d.phase == AfterParameterList then d.ret + ";\n" else "" }

  lemma {:induction false} LastBrace(s: Scanner, next: int)
    requires Proper(s)
    ensures var t := Step(s, '}', next);
      && t == Step(s, '}', EOF)
      && (t.state == Normal ==> t.backToNormal == 0 && !t.atLineStart && !t.inEscape)
  {
  }

  /** Inside the body of a definition, or of an item that is given up, nothing is copied until its
      block closes; then the detector is ready again. */
  lemma {:induction false} BodyIsSkipped(d: Detector, text: string, last: int)
    requires d.phase == AfterParameterList || d.phase == Busted
    requires Proper(d.scanner) && Closes(d.scanner, text)
    ensures Run(d, text, last) == Ready(Scan(d.scanner, text, last), d.out + Gain(d))
    decreases |text|
  {
    hide Step;
    var next := First(text[1..], last);
    var t := Step(d.scanner, text[0], next);
    LevelStep(d.scanner, text[0], next);
    if |text| == 1 {
      LastBrace(d.scanner, next);
      LastBrace(d.scanner, EOF);
      assert text[1..] == "";
      assert Scan(d.scanner, text, last) == Scan(t, text[1..], last) == t;
      assert d.out + "" == d.out && d.out + d.ret + ";\n" == d.out + (d.ret + ";\n");
    } else {
      assert next == First(text[1..], EOF) == text[1] as int;
      BodyIsSkipped(d.(scanner := t), text[1..], last);
    }
  }

  /** A block: an opening brace at top level and everything up to its closing brace. */
  predicate Block(s: Scanner, b: string) {
    && s.state == Normal && s.backToNormal == 0 && s.blockLevel == 0
    && b != "" && b[0] == '{' && Closes(Step(s, '{', EOF), b[1..])
  }

  /** Its round and square brackets are balanced. */
  predicate Balanced(s: Scanner, b: string) {
    var t := Scan(s, b, EOF);
    t.callLevel == s.callLevel && t.indexLevel == s.indexLevel
  }

  lemma {:induction false} OpenBrace(d: Detector, next: int)
    requires d.scanner.state == Normal && d.scanner.backToNormal == 0 && d.scanner.blockLevel == 0
    ensures Step(d.scanner, '{', next) == Step(d.scanner, '{', EOF)
    ensures var e := Push(d, '{', next);
      && e == Push(d, '{', EOF) && e.scanner == Step(d.scanner, '{', EOF)
      && (e.phase == AfterParameterList || e.phase == Busted)
      && Proper(e.scanner) && e.scanner.callLevel == d.scanner.callLevel && e.scanner.indexLevel == d.scanner.indexLevel
  {
    hide Contains;
  }

  lemma {:induction false} ScanLast(s: Scanner, text: string, last: int)
    requires Proper(s) && Closes(s, text)
    ensures Scan(s, text, last) == Scan(s, text, EOF)
    decreases |text|
  {
    hide Step;
    var next := First(text[1..], last);
    LevelStep(s, text[0], next);
    if |text| == 1 {
      LastBrace(s, next);
      assert text[1..] == "";
    } else {
      ScanLast(Step(s, text[0], next), text[1..], last);
    }
  }

  /** Processing a whole block: the braces alone decide, not what stands between them. */
  lemma {:induction false} BlockIsSkipped(d: Detector, b: string, last: int)
    requires Block(d.scanner, b) && Balanced(d.scanner, b)
    ensures var e := Push(d, '{', EOF);
      Run(d, b, last) == Ready(d.scanner, e.out + Gain(e))
  {
    hide Step, Push;
    OpenBrace(d, First(b[1..], last));
    OpenBrace(d, First(b[1..], EOF));
    var e := Push(d, '{', EOF);
    assert Run(d, b, last) == Run(e, b[1..], last);
    BodyIsSkipped(e, b[1..], last);
    ScanLast(e.scanner, b[1..], last);
    assert Scan(d.scanner, b, EOF) == Scan(e.scanner, b[1..], EOF);
  }

  /** Replacing a function body, or any other top-level block, by another balanced one changes nothing. */
  lemma {:induction false} BodiesExchange(before: string, a: string, b: string, after: string)
    requires var s := Scan(START, before, '{' as int);
      Block(s, a) && Balanced(s, a) && Block(s, b) && Balanced(s, b)
    ensures Output(before + a + after) == Output(before + b + after)
  {
    hide Push, Step;
    RunScans(Fresh("", true), before, '{' as int);
    forall x | x == a || x == b
      ensures Run(Fresh("", true), before + x + after, EOF)
           == Run(Run(Run(Fresh("", true), before, '{' as int), x, First(after, EOF)), after, EOF)
    {
      assert before + x + after == before + (x + after);
      RunAppend(Fresh("", true), before, x + after, EOF);
      RunAppend(Run(Fresh("", true), before, '{' as int), x, after, EOF);
    }
    var d := Run(Fresh("", true), before, '{' as int);
    BlockIsSkipped(d, a, First(after, EOF));
    BlockIsSkipped(d, b, First(after, EOF));
  }

  lemma {:induction false} RunScans(d: Detector, text: string, last: int)
    ensures Run(d, text, last).scanner == Scan(d.scanner, text, last)
    decreases |text|
  {
    hide Step, Push;
    if text != "" {
      var next := First(text[1..], last);
      PushScans(d, text[0], next);
      RunScans(Push(d, text[0], next), text[1..], last);
    }
  }

  lemma {:induction false} PushScans(d: Detector, c: char, next: int)
    ensures Push(d, c, next).scanner == Step(d.scanner, c, next)
  {
    hide Step, Recognise;
    var t := Step(d.scanner, c, next);
    RecogniseOnLine(d.(scanner := t), c, t.state, d.scanner.blockLevel, true);
  }

  // ---- Finding the way back at every item ----

  /** A top-level item: lexically closed, balanced, and ended by a semicolon or a closing brace. */
  predicate Complete(item: string) {
    && item != ""
    && var n := |item| - 1;
       var s := Scan(START, item[..n], item[n] as int);
       var t := Step(s, item[n], EOF);
       EndsItem(s.blockLevel, t, item[n]) && t.blockLevel == 0 && t.callLevel == 0 && t.indexLevel == 0
  }

  lemma {:induction false} ScanStaysProper(s: Scanner, text: string, last: int)
    requires Proper(s)
    ensures Proper(Scan(s, text, last))
    decreases |text|
  {
    hide Step;
    if text != "" {
      var next := First(text[1..], last);
      LevelStep(s, text[0], next);
      ScanStaysProper(Step(s, text[0], next), text[1..], last);
    }
  }

  lemma {:induction false} EndOfItem(s: Scanner, c: char, next: int)
    requires Proper(s) && EndsItem(s.blockLevel, Step(s, c, EOF), c)
    ensures var t := Step(s, c, next);
      t == Step(s, c, EOF) && !t.atLineStart && !t.inEscape && t.backToNormal == 0 && !IsBlank(c)
  {
  }

  /** Behind a complete item the detector is as good as new, but for the line start. */
  lemma {:induction false} ItemDone(out: string, item: string, last: int)
    requires Complete(item)
    ensures Run(Fresh(out, true), item, last) == Fresh(out + Output(item), false)
  {
    var n := |item| - 1;
    var c := item[n];
    assert item == item[..n] + [c] && [c][1..] == "";
    var f := Fresh("", true);
    var d := Run(f, item[..n], c as int);
    RunAppend(f, item[..n], [c], last);
    RunAppend(f, item[..n], [c], EOF);
    RunScans(f, item[..n], c as int);
    ScanStaysProper(START, item[..n], c as int);
    EndOfItem(d.scanner, c, last);
    assert Run(d, [c], last) == Push(d, c, last) == Push(d, c, EOF) == Run(d, [c], EOF) by {
      hide Step;
      assert Run(Push(d, c, last), "", last) == Push(d, c, last);
    }
    var e := Push(d, c, EOF);
    assert e == Fresh(e.out, false);
    assert Behind(out, f) == Fresh(out, true) by { assert out + "" == out; }
    RunBehind(out, f, item, last);
  }

  /** The item continues its predecessor's line with a directive's sign. */
  predicate BeginsWithHash(text: string)
    decreases |text|
  {
    text != "" && if IsBlank(text[0]) then BeginsWithHash(text[1..]) else text[0] == '#'
  }

  predicate AllBlank(text: string) { forall i | 0 <= i < |text| :: IsBlank(text[i]) }

  function LineStart(d: Detector, b: bool): Detector { d.(scanner := d.scanner.(atLineStart := b)) }

  lemma {:induction false} StepOnLine(s: Scanner, c: char, next: int, b: bool)
    requires s.state == Normal && s.backToNormal == 0
    ensures !IsBlank(c) && c != '#' ==> Step(s.(atLineStart := b), c, next) == Step(s, c, next)
    ensures IsBlank(c) ==> Step(s.(atLineStart := b), c, next) == Step(s, c, next).(atLineStart := b)
    ensures IsBlank(c) ==> Step(s, c, next).state == Normal && Step(s, c, next).backToNormal == 0
  {
  }

  lemma {:induction false} WriteOnLine(d: Detector, c: char, b: bool)
    ensures WriteChar(LineStart(d, b), c) == LineStart(WriteChar(d, c), b)
    ensures WriteChar(d, c).scanner == d.scanner
  {
  }

  lemma {:induction false} WordsOnLine(d: Detector, c: char, kind: Class, b: bool)
    ensures InWords(LineStart(d, b), c, kind) == LineStart(InWords(d, c, kind), b)
    ensures InWords(d, c, kind).scanner == d.scanner
  {
    hide Contains;
  }

  lemma {:induction false} ListOnLine(d: Detector, c: char, kind: Class, b: bool)
    ensures InList(LineStart(d, b), c, kind) == LineStart(InList(d, c, kind), b)
    ensures InList(d, c, kind).scanner == d.scanner
  {
    hide WriteChar;
    WriteOnLine(d, c, b);
    WriteOnLine(d.(phase := Busted), c, b);
  }

  lemma {:induction false} RecogniseOnLine(d: Detector, c: char, kind: Class, before: int, b: bool)
    ensures Recognise(LineStart(d, b), c, kind, before) == LineStart(Recognise(d, c, kind, before), b)
    ensures Recognise(d, c, kind, before).scanner == d.scanner
  {
    hide InWords, InList;
    WordsOnLine(d, c, kind, b);
    ListOnLine(d, c, kind, b);
  }

  lemma {:induction false} FirstOnLine(d: Detector, c: char, next: int, b: bool)
    requires d.scanner.state == Normal && d.scanner.backToNormal == 0
    ensures !IsBlank(c) && c != '#' ==> Push(LineStart(d, b), c, next) == Push(d, c, next)
    ensures IsBlank(c) ==>
      && Push(LineStart(d, b), c, next) == LineStart(Push(d, c, next), b)
      && Push(d, c, next).scanner.state == Normal && Push(d, c, next).scanner.backToNormal == 0
  {
    hide Step, Recognise;
    StepOnLine(d.scanner, c, next, b);
    var t := Step(d.scanner, c, next);
    RecogniseOnLine(d.(scanner := t), c, t.state, d.scanner.blockLevel, b);
  }

  /** Whether a line starts here matters only to a directive's sign. */
  lemma {:induction false} LineStartIrrelevant(d: Detector, text: string, last: int)
    requires d.scanner.state == Normal && d.scanner.backToNormal == 0
    requires !BeginsWithHash(text) && !AllBlank(text)
    ensures Run(LineStart(d, true), text, last) == Run(LineStart(d, false), text, last)
    decreases |text|
  {
    hide Push;
    var next := First(text[1..], last);
    FirstOnLine(d, text[0], next, true);
    FirstOnLine(d, text[0], next, false);
    if IsBlank(text[0]) {
      var e := Push(d, text[0], next);
      LineStartIrrelevant(e, text[1..], last);
    }
  }

  function Concat(items: seq<string>): string
    decreases |items|
  {
    if items == [] then "" else items[0] + Concat(items[1..])
  }

  function Outputs(items: seq<string>): string
    decreases |items|
  {
    if items == [] then "" else Output(items[0]) + Outputs(items[1..])
  }

  lemma {:induction false} ItemsDone(out: string, lineStart: bool, items: seq<string>, last: int)
    requires forall i | 0 <= i < |items| :: Complete(items[i])
    requires forall i | (if lineStart then 1 else 0) <= i < |items| :: !BeginsWithHash(items[i])
    ensures Run(Fresh(out, lineStart), Concat(items), last) == Fresh(out + Outputs(items), lineStart && items == [])
    decreases |items|
  {
    hide Push, Step, Complete, BeginsWithHash;
    if items == [] {
      assert out + "" == out;
    } else {
      var item, rest := items[0], Concat(items[1..]);
      var next := First(rest, last);
      RunAppend(Fresh(out, lineStart), item, rest, last);
      ItemDone(out, item, next);
      if !lineStart {
        NotAllBlank(item);
        LineStartIrrelevant(Fresh(out, true), item, next);
        assert LineStart(Fresh(out, true), true) == Fresh(out, true) && LineStart(Fresh(out, true), false) == Fresh(out, false);
      }
      ItemsDone(out + Output(item), false, items[1..], last);
      assert out + Output(item) + Outputs(items[1..]) == out + (Output(item) + Outputs(items[1..]));
    }
  }

  lemma {:induction false} NotAllBlank(item: string)
    requires Complete(item)
    ensures !AllBlank(item)
  {
    var n := |item| - 1;
    ScanStaysProper(START, item[..n], item[n] as int);
    EndOfItem(Scan(START, item[..n], item[n] as int), item[n], EOF);
    assert !IsBlank(item[n]);
  }

  predicate AllSpace(text: string) { forall i | 0 <= i < |text| :: IsSpace(text[i]) }

  lemma {:induction false} SpaceCopiesNothing(d: Detector, text: string, last: int)
    requires AllSpace(text) && d.phase == BeforeParameterList && d.scanner.state == Normal && d.scanner.backToNormal == 0
    ensures Run(d, text, last).out == d.out
    decreases |text|
  {
    hide Contains;
    if text != "" {
      var e := Push(d, text[0], First(text[1..], last));
      assert IsSpace(text[0]);
      assert e.phase == BeforeParameterList && e.out == d.out && e.scanner.state == Normal && e.scanner.backToNormal == 0;
      SpaceCopiesNothing(e, text[1..], last);
    }
  }

  /** What is copied from a sequence of complete items is what is copied from each of them alone. */
  lemma {:induction false} ItemsAreIndependent(items: seq<string>, tail: string)
    requires forall i | 0 <= i < |items| :: Complete(items[i])
    requires forall i | 1 <= i < |items| :: !BeginsWithHash(items[i])
    requires AllSpace(tail)
    ensures Output(Concat(items) + tail) == Outputs(items)
  {
    hide Push, Step, Complete, BeginsWithHash;
    RunAppend(Fresh("", true), Concat(items), tail, EOF);
    ItemsDone("", true, items, First(tail, EOF));
    assert "" + Outputs(items) == Outputs(items);
    SpaceCopiesNothing(Fresh(Outputs(items), items == []), tail, EOF);
  }

  // ---- The detector object ----

  class FunctionDeclarationDetector {
    const classifier: CharacterClassifier
    var phase: Phase
    var nextChar: int              // the character that waits for its successor
    var inWhitespace: bool
    var spaceNeeded: bool
    var curStream: string
    var returnStream: string
    var outputStream: string

    function State(): Detector
      reads this, classifier
    {
      Detector(classifier.View(), phase, inWhitespace, spaceNeeded, curStream, returnStream, outputStream)
    }

    predicate Waiting()
      reads this`nextChar
    {
      nextChar == EOF || 0 <= nextChar < 256
    }

    constructor ()
      ensures State() == Fresh("", true) && nextChar == EOF && fresh(classifier)
    {
      classifier := new CharacterClassifier();
      phase, nextChar, inWhitespace, spaceNeeded := BeforeParameterList, EOF, true, false;
      curStream, returnStream, outputStream := "", "", "";
    }

    method WriteNext(c: char)
      modifies this`curStream, this`inWhitespace, this`spaceNeeded
      ensures State() == WriteChar(old(State()), c)
    {
      if c == ' ' || c == '\t' || c == '\n' || c == '\r' {
        inWhitespace := true;
      } else if c == ')' {
        curStream := curStream + ")";
        inWhitespace, spaceNeeded := false, false;
      } else {
        if inWhitespace && spaceNeeded {
          curStream := curStream + " ";
        } else {
          assert curStream + "" == curStream;
        }
        curStream := curStream + [c];
        inWhitespace, spaceNeeded := false, true;
        if c == '(' || c == '[' {
          inWhitespace, spaceNeeded := true, false;
        }
      }
    }

    method FlushCurStream()
      modifies this`curStream, this`returnStream
      ensures State() == FlushCur(old(State()))
    {
      returnStream, curStream := returnStream + curStream, "";
    }

    method ResetStreams()
      modifies this`curStream, this`returnStream, this`inWhitespace, this`spaceNeeded
      ensures State() == Reset(old(State()))
    {
      curStream, returnStream, inWhitespace, spaceNeeded := "", "", true, false;
    }

    method FlushReturnStream()
      modifies this`curStream, this`returnStream, this`outputStream, this`inWhitespace, this`spaceNeeded
      ensures State() == FlushReturn(old(State()))
    {
      outputStream := outputStream + returnStream + ";\n";
      ResetStreams();
    }

    method PushInWords(c: char, kind: Class)
      modifies this`phase, this`curStream, this`returnStream, this`inWhitespace, this`spaceNeeded
      ensures State() == InWords(old(State()), c, kind)
    {
      hide Contains;
      match kind {
        case Normal =>
          if IsSpace(c) {
            if Contains(curStream, "extern") {
              curStream, inWhitespace, spaceNeeded := "", true, true;
            }
            FlushCurStream();
          }
          if c == '{' {
            phase := Busted;
          }
          if c == '(' {
            phase := InParameterList;
            FlushCurStream();
            if Contains(returnStream, "static") || Contains(returnStream, "inline") {
              phase := Busted;
            }
          }
          WriteNext(c);
        case CharConstant => phase := Busted;
        case String => phase := Busted;
        case _ =>
      }
    }

    method PushInList(c: char, kind: Class)
      modifies this`phase, this`curStream, this`returnStream, this`inWhitespace, this`spaceNeeded
      ensures State() == InList(old(State()), c, kind)
    {
      match kind {
        case Normal =>
          if c == '{' {
            phase := Busted;
          }
          WriteNext(c);
          if classifier.callLevel == 0 {
            phase := AfterParameterList;
            FlushCurStream();
          }
        case CharConstant => phase := Busted;
        case String => phase := Busted;
        case _ =>
      }
    }

    method PushInBody(c: char, kind: Class, oldBlockLevel: int)
      modifies this`phase, this`curStream, this`returnStream, this`outputStream, this`inWhitespace, this`spaceNeeded
      ensures State() == InBody(old(State()), c, kind, oldBlockLevel)
    {
      if kind == Normal {
        if oldBlockLevel != 0 {
          if classifier.blockLevel == 0 {
            phase := BeforeParameterList;
            FlushReturnStream();
          }
        } else if !(IsSpace(c) || c == '{') {
          phase := Busted;
        }
      }
    }

    /** Takes the next character, or the end of the text; what is processed is its predecessor. */
    method PushChar(curChar: int)
      requires curChar == EOF || 0 <= curChar < 256
      requires Waiting()
      modifies this, classifier
      ensures Waiting() && nextChar == curChar
      ensures State() == if old(nextChar) == EOF then old(State()) else Push(old(State()), old(nextChar) as char, curChar)
    {
      if nextChar != EOF {
        var c := nextChar as char;
        var oldBlockLevel := classifier.blockLevel;
        var kind := classifier.Classify(c, curChar);
        match phase {
          case BeforeParameterList => PushInWords(c, kind);
          case InParameterList => PushInList(c, kind);
          case AfterParameterList => PushInBody(c, kind, oldBlockLevel);
          case Busted =>
        }
        if kind == Normal {
          if (oldBlockLevel == 0 && c == ';') || (oldBlockLevel != 0 && classifier.blockLevel == 0) {
            phase := BeforeParameterList;
            ResetStreams();
          }
        }
      }
      nextChar := curChar;
    }
  }

  /** Feeds a whole text and its end to a new detector. */
  method Extract(text: string) returns (declarations: string)
    requires forall i | 0 <= i < |text| :: text[i] as int < 256
    ensures declarations == Output(text)
  {
    hide Push;
    var detector := new FunctionDeclarationDetector();
    for i := 0 to |text|
      invariant detector.Waiting() && fresh(detector) && fresh(detector.classifier)
      invariant i == 0 ==> detector.nextChar == EOF && detector.State() == Fresh("", true)
      invariant i > 0 ==> detector.nextChar == text[i - 1] as int
      invariant i > 0 ==> Run(detector.State(), text[i - 1..], EOF) == Run(Fresh("", true), text, EOF)
    {
      ghost var d := detector.State();
      detector.PushChar(text[i] as int);
      if i > 0 {
        assert text[i - 1..][1..] == text[i..];
      } else {
        assert text[0..] == text;
      }
    }
    ghost var d := detector.State();
    detector.PushChar(EOF);
    if text != "" {
      assert text[|text| - 1..][1..] == "";
      assert Run(d, text[|text| - 1..], EOF) == Run(detector.State(), "", EOF);
    }
    declarations := detector.outputStream;
  }
}
