/** What the extractor does with comments, directives and literals, and with items that are no definitions. */
module ItemTexts {
  import opened Classifier
  import opened DeclarationDetector

  // ---- Comments and directives ----

  predicate Hidden(kind: Class) { kind == Directive || kind == LineComment || kind == BlockComment }

  /** The characters of a text that `last` follows that are neither in comments nor in directives. */
  function Visible(s: Scanner, text: string, last: int): string
    decreases |text|
  {
    if text == "" then ""
    else
      var t := Step(s, text[0], First(text[1..], last));
      (if Hidden(t.state) then "" else [text[0]]) + Visible(t, text[1..], last)
  }

  predicate NoLiterals(s: Scanner, text: string, last: int)
    decreases |text|
  {
    text == "" ||
      var t := Step(s, text[0], First(text[1..], last));
      (Hidden(t.state) || t.state == Normal) && NoLiterals(t, text[1..], last)
  }

  /** A character that never begins a token of its own. */
  predicate Inert(c: char) { c != '"' && c != '\'' && c != '/' && c != '#' }

  /** In normal text. */
  predicate Open(s: Scanner) { s.state == Normal && s.backToNormal == 0 }

  /** The same but for what the scanner remembers beside its levels. */
  predicate Alike(d: Detector, e: Detector) {
    && d.(scanner := e.scanner) == e
    && d.scanner.blockLevel == e.scanner.blockLevel
    && d.scanner.callLevel == e.scanner.callLevel
    && d.scanner.indexLevel == e.scanner.indexLevel
  }

  lemma {:induction false} HiddenStep(d: Detector, c: char, next: int)
    requires Proper(d.scanner) && Hidden(Step(d.scanner, c, next).state)
    ensures Push(d, c, next) == d.(scanner := Step(d.scanner, c, next)) && Alike(Push(d, c, next), d)
  {
    hide Step;
    LevelStep(d.scanner, c, next);
  }

  lemma {:induction false} InertStep(s: Scanner, c: char, next: int)
    requires Open(s) && Inert(c)
    ensures Open(Step(s, c, next)) && Proper(s)
  {
  }

  lemma {:induction false} WordsAnywhere(d: Detector, t: Scanner, c: char, kind: Class)
    ensures InWords(d.(scanner := t), c, kind) == InWords(d, c, kind).(scanner := t)
    ensures InWords(d, c, kind).scanner == d.scanner
  {
    hide Contains;
  }

  lemma {:induction false} ListAnywhere(d: Detector, t: Scanner, c: char, kind: Class)
    requires t.callLevel == d.scanner.callLevel
    ensures InList(d.(scanner := t), c, kind) == InList(d, c, kind).(scanner := t)
    ensures InList(d, c, kind).scanner == d.scanner
  {
  }

  lemma {:induction false} BodyAnywhere(d: Detector, t: Scanner, c: char, kind: Class, before: int)
    requires t.blockLevel == d.scanner.blockLevel
    ensures InBody(d.(scanner := t), c, kind, before) == InBody(d, c, kind, before).(scanner := t)
    ensures InBody(d, c, kind, before).scanner == d.scanner
  {
  }

  lemma {:induction false} RecognisedAlike(d: Detector, e: Detector, c: char, kind: Class, before: int)
    requires Alike(d, e)
    ensures Alike(Recognise(d, c, kind, before), Recognise(e, c, kind, before))
    ensures Recognise(d, c, kind, before).scanner == d.scanner && Recognise(e, c, kind, before).scanner == e.scanner
  {
    hide InWords, InList, InBody;
    assert e == d.(scanner := e.scanner);
    WordsAnywhere(d, e.scanner, c, kind);
    ListAnywhere(d, e.scanner, c, kind);
    BodyAnywhere(d, e.scanner, c, kind, before);
    WordsAnywhere(e, d.scanner, c, kind);
    ListAnywhere(e, d.scanner, c, kind);
    BodyAnywhere(e, d.scanner, c, kind, before);
  }

  lemma {:induction false} VisibleStep(d: Detector, e: Detector, c: char, n: int, m: int)
    requires Alike(d, e) && Proper(d.scanner) && Open(e.scanner) && Inert(c)
    requires Step(d.scanner, c, n).state == Normal
    ensures Alike(Push(d, c, n), Push(e, c, m)) && Open(Push(e, c, m).scanner)
  {
    hide Step, Recognise;
    InertStep(e.scanner, c, m);
    LevelStep(d.scanner, c, n);
    LevelStep(e.scanner, c, m);
    var t, u := Step(d.scanner, c, n), Step(e.scanner, c, m);
    RecognisedAlike(d.(scanner := t), e.(scanner := u), c, Normal, d.scanner.blockLevel);
  }

  lemma {:induction false} RunsAlike(d: Detector, e: Detector, text: string, last: int)
    requires Alike(d, e) && Proper(d.scanner) && Open(e.scanner) && NoLiterals(d.scanner, text, last)
    requires forall c | c in Visible(d.scanner, text, last) :: Inert(c)
    ensures var v := Visible(d.scanner, text, last);
      && Alike(Run(d, text, last), Run(e, v, last)) && Open(Run(e, v, last).scanner)
      && Run(d, text, last).scanner == Scan(d.scanner, text, last)
    decreases |text|
  {
    hide Step, Push, Inert;
    if text != "" {
      var c, next := text[0], First(text[1..], last);
      var t := Step(d.scanner, c, next);
      var rest := Visible(t, text[1..], last);
      LevelStep(d.scanner, c, next);
      PushScans(d, c, next);
      if Hidden(t.state) {
        assert "" + rest == rest;
        HiddenStep(d, c, next);
        RunsAlike(Push(d, c, next), e, text[1..], last);
      } else {
        var v := [c] + rest;
        assert v[0] == c && v[1..] == rest && Visible(d.scanner, text, last) == v;
        assert Inert(c) by { assert c in v; }
        assert forall x | x in rest :: x in v;
        VisibleStep(d, e, c, next, First(rest, last));
        RunsAlike(Push(d, c, next), Push(e, c, First(rest, last)), text[1..], last);
      }
    }
  }

  lemma {:induction false} NextAlike(d: Detector, e: Detector, c: char, next: int)
    requires Alike(d, e) && Open(d.scanner) && Open(e.scanner) && c !in " \t\n\\#"
    ensures Push(d, c, next) == Push(e, c, next)
  {
    hide Recognise;
    assert c != ' ' && c != '\t' && c != '\n' && c != '\\' && c != '#';
    var t := Step(d.scanner, c, next);
    assert t == Step(e.scanner, c, next);
    assert d.(scanner := t) == e.(scanner := t);
  }

  /** Comments and directives are as if they were not there: whatever they say, exactly the same is copied
      from the text without them. */
  lemma {:induction false} CommentsVanish(text: string, c: char, after: string)
    requires NoLiterals(START, text, c as int) && Open(Scan(START, text, c as int)) && c !in " \t\n\\#"
    requires forall x | x in Visible(START, text, c as int) :: Inert(x)
    ensures Output(text + [c] + after) == Output(Visible(START, text, c as int) + [c] + after)
  {
    hide Push, Step, NoLiterals, Visible, Inert, Open;
    var f, v := Fresh("", true), Visible(START, text, c as int);
    RunsAlike(f, f, text, c as int) by { StartOpen(); }
    var d, e := Run(f, text, c as int), Run(f, v, c as int);
    forall x | x == text || x == v
      ensures Run(f, x + [c] + after, EOF) == Run(Push(Run(f, x, c as int), c, First(after, EOF)), after, EOF)
    {
      assert x + [c] + after == x + ([c] + after);
      RunAppend(f, x, [c] + after, EOF);
      assert ([c] + after)[1..] == after;
    }
    NextAlike(d, e, c, First(after, EOF));
  }

  lemma {:induction false} StartOpen()
    ensures Open(START) && Proper(START)
  {
  }

  // ---- Items that are no definitions ----

  /** The item does not end within the text. */
  predicate GoesOn(s: Scanner, text: string, last: int)
    decreases |text|
  {
    text == "" ||
      var t := Step(s, text[0], First(text[1..], last));
      !EndsItem(s.blockLevel, t, text[0]) && GoesOn(t, text[1..], last)
  }

  lemma {:induction false} StaysBusted(d: Detector, text: string, last: int)
    requires d.phase == Busted && GoesOn(d.scanner, text, last)
    ensures Run(d, text, last) == d.(scanner := Scan(d.scanner, text, last))
    decreases |text|
  {
    hide Step, EndsItem;
    if text != "" {
      var t := Step(d.scanner, text[0], First(text[1..], last));
      assert Push(d, text[0], First(text[1..], last)) == d.(scanner := t);
      StaysBusted(d.(scanner := t), text[1..], last);
    }
  }

  /** A character that makes an item something else than a definition: a literal or a block in front of the
      parameter list's end, or anything but white space and a block behind it. */
  predicate Spoils(phase: Phase, c: char, kind: Class) {
    match phase
    case BeforeParameterList => kind == String || kind == CharConstant || (kind == Normal && c == '{')
    case InParameterList => kind == String || kind == CharConstant || (kind == Normal && c == '{')
    case AfterParameterList => kind == Normal && c != '{' && c !in " \t\r\n"
    case Busted => true
  }

  lemma {:induction false} NothingBeforeTheEnd(d: Detector, c: char, next: int)
    ensures var t := Step(d.scanner, c, next);
      && (!EndsItem(d.scanner.blockLevel, t, c) ==> Push(d, c, next).out == d.out)
      && (EndsItem(d.scanner.blockLevel, t, c) ==>
            Push(d, c, next).out == d.out + if d.scanner.blockLevel != 0 then Gain(d) else "")
  {
    hide Contains, Step;
    assert d.out + "" == d.out && d.out + d.ret + ";\n" == d.out + (d.ret + ";\n");
  }

  lemma {:induction false} NothingOnTheWay(d: Detector, text: string, last: int)
    requires GoesOn(d.scanner, text, last)
    ensures Run(d, text, last).out == d.out
    decreases |text|
  {
    hide Step, Push, EndsItem;
    if text != "" {
      var next := First(text[1..], last);
      NothingBeforeTheEnd(d, text[0], next);
      PushScans(d, text[0], next);
      NothingOnTheWay(Push(d, text[0], next), text[1..], last);
    }
  }

  /** An item that ends where its last character stands and not before. */
  predicate OneItem(item: string) {
    Complete(item) && GoesOn(START, item[..|item| - 1], item[|item| - 1] as int)
  }

  /** What an item adds to the output is decided at its end: nothing at a semicolon, and at the end of a block
      the declaration in front of it, if the item has come that far. */
  lemma {:induction false} OutputOfItem(item: string)
    requires OneItem(item)
    ensures var n := |item| - 1;
      var d := Run(Fresh("", true), item[..n], item[n] as int);
      Output(item) == if d.scanner.blockLevel != 0 then Gain(d) else ""
  {
    hide Step, Push, GoesOn;
    var n, f := |item| - 1, Fresh("", true);
    var c := item[n];
    var d := Run(f, item[..n], c as int);
    assert item == item[..n] + [c] && [c][1..] == "";
    RunAppend(f, item[..n], [c], EOF);
    RunScans(f, item[..n], c as int);
    NothingOnTheWay(f, item[..n], c as int);
    NothingBeforeTheEnd(d, c, EOF);
    assert Run(d, [c], EOF) == Push(d, c, EOF);
    assert "" + Gain(d) == Gain(d) && "" + "" == "";
  }

  /** Nothing is copied of an item that is something else than a definition. */
  lemma {:induction false} SpoiledItem(item: string, k: nat)
    requires OneItem(item) && k < |item| - 1
    requires var next := item[k + 1] as int;
      var d := Run(Fresh("", true), item[..k], item[k] as int);
      && d.scanner.blockLevel == 0 && (d.phase == InParameterList ==> Step(d.scanner, item[k], next).callLevel != 0)
      && Spoils(d.phase, item[k], Step(d.scanner, item[k], next).state)
    ensures Output(item) == ""
  {
    hide Step, Push, GoesOn, Spoils, Complete;
    var n, f := |item| - 1, Fresh("", true);
    var c, last := item[k], item[n] as int;
    var before, behind := item[..k], item[k + 1..n];
    assert item[..n] == before + ([c] + behind) && ([c] + behind)[1..] == behind;
    var next := First(behind, last);
    assert next == item[k + 1] as int;
    RunAppend(f, before, [c] + behind, last);
    RunScans(f, before, c as int);
    var d := Run(f, before, c as int);
    GoesOnAfter(START, before, [c] + behind, last);
    GoesOnFirst(d.scanner, c, behind, last);
    SpoiledIsBusted(d, c, next);
    PushScans(d, c, next);
    StaysBusted(Push(d, c, next), behind, last);
    assert Run(f, item[..n], last).phase == Busted;
    OutputOfItem(item);
  }

  lemma {:induction false} GoesOnFirst(s: Scanner, c: char, text: string, last: int)
    requires GoesOn(s, [c] + text, last)
    ensures var t := Step(s, c, First(text, last)); !EndsItem(s.blockLevel, t, c) && GoesOn(t, text, last)
  {
    assert ([c] + text)[1..] == text;
  }

  lemma {:induction false} GoesOnAfter(s: Scanner, a: string, b: string, last: int)
    requires GoesOn(s, a + b, last)
    ensures GoesOn(Scan(s, a, First(b, last)), b, last)
    decreases |a|
  {
    hide Step, EndsItem;
    if a == "" {
      assert a + b == b;
    } else {
      assert (a + b)[1..] == a[1..] + b;
      assert First(a[1..] + b, last) == First(a[1..], First(b, last));
      GoesOnAfter(Step(s, a[0], First(a[1..] + b, last)), a[1..], b, last);
    }
  }

  lemma {:induction false} SpoiledIsBusted(d: Detector, c: char, next: int)
    requires d.scanner.blockLevel == 0 && Spoils(d.phase, c, Step(d.scanner, c, next).state)
    requires d.phase == InParameterList ==> Step(d.scanner, c, next).callLevel != 0
    requires !EndsItem(0, Step(d.scanner, c, next), c)
    ensures Push(d, c, next).phase == Busted
  {
    hide Contains, Step;
  }

  /** An item that ends with a semicolon is not copied, whatever it declares. */
  lemma {:induction false} SemicolonCopiesNothing(item: string)
    requires OneItem(item) && item[|item| - 1] == ';'
    ensures Output(item) == ""
  {
    hide Step, Push, GoesOn;
    OutputOfItem(item);
    var n, f := |item| - 1, Fresh("", true);
    RunScans(f, item[..n], ';' as int);
    ScanStaysProper(START, item[..n], ';' as int);
    LevelStep(Scan(START, item[..n], ';' as int), ';', EOF);
  }
}
