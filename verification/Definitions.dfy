/** What the extractor copies from a function definition, and what normalised white space is. */
module Definitions {
  import opened Classifier
  import opened DeclarationDetector

  // ---- Writing a text ----

  function WriteAll(p: Pen, text: string): Pen
    decreases |text|
  {
    if text == "" then p else WriteAll(Write(p, text[0]), text[1..])
  }

  /** Nothing written, and no blank due. */
  const PEN := Pen("", true, false)

  /** The text with its white space normalised. */
  function Tidy(text: string): string { WriteAll(PEN, text).text }

  lemma {:induction false} WriteAllAppend(p: Pen, a: string, b: string)
    ensures WriteAll(p, a + b) == WriteAll(WriteAll(p, a), b)
    decreases |a|
  {
    if a == "" {
      assert a + b == b;
    } else {
      assert (a + b)[1..] == a[1..] + b;
      WriteAllAppend(Write(p, a[0]), a[1..], b);
    }
  }

  lemma {:induction false} WriteGrows(p: Pen, text: string)
    ensures p.text <= WriteAll(p, text).text
    decreases |text|
  {
    if text != "" { WriteGrows(Write(p, text[0]), text[1..]); }
  }

  // ---- What normalising white space means ----

  /** The characters that are not white space. */
  function Ink(s: string): string {
    if s == "" then "" else Ink(s[..|s| - 1]) + if IsSpace(s[|s| - 1]) then "" else [s[|s| - 1]]
  }

  /** Blanks stand alone, inside, and not next to the inner side of a bracket; there is no other white space.
      None stands behind a closing parenthesis either. */
  predicate Tidied(s: string) {
    && (forall i | 0 <= i < |s| :: IsSpace(s[i]) ==> s[i] == ' ' && 0 < i < |s| - 1)
    && (forall i | 0 < i < |s| - 1 ::
          s[i] == ' ' ==> s[i - 1] != ' ' && s[i - 1] != '(' && s[i - 1] != '[' && s[i - 1] != ')' && s[i + 1] != ' ' && s[i + 1] != ')')
  }

  /** A blank may come next only behind a character that is no bracket on that side. */
  predicate ReadyPen(p: Pen) {
    && Tidied(p.text)
    && (p.spaceNeeded ==> p.text != "" && var c := p.text[|p.text| - 1]; c != '(' && c != '[' && c != ')')
  }

  lemma {:induction false} OneMore(s: string, c: char)
    requires Tidied(s) && !IsSpace(c)
    ensures Tidied(s + [c])
  {
  }

  lemma {:induction false} BlankAndOneMore(s: string, c: char)
    requires Tidied(s) && !IsSpace(c) && c != ')' && s != ""
    requires s[|s| - 1] != '(' && s[|s| - 1] != '[' && s[|s| - 1] != ')'
    ensures Tidied(s + " " + [c])
  {
    assert !IsSpace(s[|s| - 1]);
  }

  lemma {:induction false} InkLast(s: string, c: char)
    ensures Ink(s + [c]) == Ink(s) + Ink([c])
  {
    assert (s + [c])[..|s|] == s && [c][..0] == "" && Ink("") == "";
  }

  lemma {:induction false} WriteInk(p: Pen, c: char)
    ensures Ink(Write(p, c).text) == Ink(p.text) + Ink([c])
  {
    InkLast("", c);
    if IsSpace(c) {
      assert Ink(p.text) + "" == Ink(p.text);
    } else {
      InkLast(p.text, c);
      InkLast(p.text, ' ');
      InkLast(p.text + " ", c);
      assert p.text + "" + [c] == p.text + [c];
      assert Ink(p.text) + "" == Ink(p.text);
    }
  }

  lemma {:induction false} WriteTidies(p: Pen, c: char)
    requires ReadyPen(p)
    ensures ReadyPen(Write(p, c))
  {
    hide Tidied;
    if !IsSpace(c) {
      OneMore(p.text, c);
      if c != ')' && p.inWhitespace && p.spaceNeeded {
        BlankAndOneMore(p.text, c);
      } else {
        assert p.text + "" + [c] == p.text + [c];
      }
    }
  }

  lemma {:induction false} InkAppend(a: string, b: string)
    ensures Ink(a + b) == Ink(a) + Ink(b)
  {
    if b == "" {
      assert a + b == a;
    } else {
      InkAppend(a, b[..|b| - 1]);
      assert (a + b)[..|a + b| - 1] == a + b[..|b| - 1];
    }
  }

  lemma {:induction false} WriteAllInk(p: Pen, text: string)
    ensures Ink(WriteAll(p, text).text) == Ink(p.text) + Ink(text)
    decreases |text|
  {
    hide Write;
    if text != "" {
      WriteInk(p, text[0]);
      WriteAllInk(Write(p, text[0]), text[1..]);
      InkAppend([text[0]], text[1..]);
      assert [text[0]] + text[1..] == text;
    }
  }

  lemma {:induction false} WriteAllTidies(p: Pen, text: string)
    requires ReadyPen(p)
    ensures ReadyPen(WriteAll(p, text))
    decreases |text|
  {
    hide Write, Tidied;
    if text != "" {
      WriteTidies(p, text[0]);
      WriteAllTidies(Write(p, text[0]), text[1..]);
    }
  }

  /** Normalising keeps every other character, in order, and leaves only single, necessary blanks. */
  lemma {:induction false} TidyIsNormalForm(text: string)
    ensures Ink(Tidy(text)) == Ink(text) && Tidied(Tidy(text))
  {
    WriteAllTidies(PEN, text);
    WriteAllInk(PEN, text);
    assert "" + Ink(text) == Ink(text);
  }

  // ---- Where the blanks stand ----

  /** White space, and nothing else. */
  predicate White(text: string) { forall i | 0 <= i < |text| :: text[i] in " \t\n\r" }

  lemma {:induction false} WriteWhite(p: Pen, text: string)
    requires White(text)
    ensures WriteAll(p, text) == if text == "" then p else p.(inWhitespace := true)
    decreases |text|
  {
    if text != "" {
      assert text[0] in " \t\n\r";
      WriteWhite(Write(p, text[0]), text[1..]);
    }
  }

  lemma {:induction false} WriteLast(p: Pen, text: string, k: nat)
    requires k < |text|
    ensures WriteAll(p, text[..k + 1]) == Write(WriteAll(p, text[..k]), text[k])
  {
    assert text[..k + 1] == text[..k] + [text[k]];
    WriteOneMore(p, text[..k], text[k]);
  }

  /** The beginning of the copy is settled with the beginning of the text. */
  lemma {:induction false} TidyGrows(text: string, k: nat)
    requires k <= |text|
    ensures Tidy(text[..k]) <= Tidy(text)
    ensures White(text[k..]) ==> Tidy(text[..k]) == Tidy(text)
  {
    assert text == text[..k] + text[k..];
    WriteAllAppend(PEN, text[..k], text[k..]);
    WriteGrows(WriteAll(PEN, text[..k]), text[k..]);
    if White(text[k..]) {
      WriteWhite(WriteAll(PEN, text[..k]), text[k..]);
    }
  }

  /** White space at the beginning leaves nothing. */
  lemma {:induction false} FirstCharacter(text: string, i: nat)
    requires i < |text| && White(text[..i]) && text[i] !in " \t\n\r"
    ensures Tidy(text[..i + 1]) == [text[i]]
  {
    WriteLast(PEN, text, i);
    WriteWhite(PEN, text[..i]);
  }

  /** Between two neighbouring other characters one blank is copied exactly when there was white space, no
      opening bracket or closing parenthesis in front of it, and no closing parenthesis behind. */
  lemma {:induction false} BlanksStay(text: string, i: nat, j: nat)
    requires i < j < |text| && White(text[i + 1..j]) && text[i] !in " \t\n\r" && text[j] !in " \t\n\r"
    ensures var blank := i + 1 < j && text[i] !in "([)" && text[j] != ')';
      Tidy(text[..j + 1]) == Tidy(text[..i + 1]) + (if blank then " " else "") + [text[j]]
  {
    var p := WriteAll(PEN, text[..i]);
    WriteLast(PEN, text, i);
    WriteLast(PEN, text, j);
    assert text[..j] == text[..i + 1] + text[i + 1..j];
    WriteAllAppend(PEN, text[..i + 1], text[i + 1..j]);
    WriteWhite(Write(p, text[i]), text[i + 1..j]);
    BetweenTwo(p, text[i], i + 1 < j, text[j]);
  }

  lemma {:induction false} BetweenTwo(p: Pen, c: char, white: bool, d: char)
    requires c !in " \t\n\r" && d !in " \t\n\r"
    ensures var q := Write(p, c);
      var r := if white then q.(inWhitespace := true) else q;
      Write(r, d).text == q.text + (if white && c !in "([)" && d != ')' then " " else "") + [d]
  {
    var q := Write(p, c);
    assert q.text + "" + [d] == q.text + [d];
  }

  lemma {:induction false} InkOfWord(word: string)
    requires NoSpace(word)
    ensures Ink(word) == word
  {
    if word != "" {
      InkOfWord(word[..|word| - 1]);
      assert word == word[..|word| - 1] + [word[|word| - 1]];
    }
  }

  lemma {:induction false} ExternIsLong(word: string)
    requires Contains(word, "extern")
    ensures |word| >= 6
  {
  }

  // ---- The head of a definition ----

  /** The whole declaration so far, with the pen's state. */
  function Joined(d: Detector): Pen { Pen(d.ret + d.cur, d.inWhitespace, d.spaceNeeded) }

  lemma {:induction false} WriteJoined(d: Detector, c: char)
    ensures Joined(WriteChar(d, c)) == Write(Joined(d), c)
    ensures Joined(FlushCur(d)) == Joined(d)
  {
    var space := if d.inWhitespace && d.spaceNeeded then " " else "";
    assert d.ret + (d.cur + space + [c]) == d.ret + d.cur + space + [c];
    assert d.ret + (d.cur + ")") == d.ret + d.cur + ")";
    assert d.ret + d.cur + "" == d.ret + d.cur;
  }

  /** A character that neither opens a token nor a block, nor ends an item. */
  predicate Plain(c: char) {
    c != '"' && c != '\'' && c != '/' && c != '#' && c != '{' && c != '}' && c != ';'
  }

  predicate Words(text: string) { forall i | 0 <= i < |text| :: Plain(text[i]) && text[i] != '(' && text[i] != ')' }

  /** In normal text at top level, at some depth of parentheses. */
  predicate Idle(s: Scanner, depth: int) {
    s.state == Normal && s.backToNormal == 0 && s.blockLevel == 0 && s.callLevel == depth
  }

  lemma {:induction false} PlainStep(s: Scanner, c: char, next: int)
    requires Idle(s, s.callLevel) && Plain(c)
    ensures Idle(Step(s, c, next), s.callLevel + Change(c, '(', ')'))
  {
  }

  // -- The head: words, without those that contain extern --

  predicate NoSpace(text: string) { forall i | 0 <= i < |text| :: !IsSpace(text[i]) }

  /** The length of the word that a text begins with. */
  function WordLength(text: string): (n: nat)
    ensures n <= |text|
    decreases |text|
  {
    if text == "" || IsSpace(text[0]) then 0 else 1 + WordLength(text[1..])
  }

  lemma {:induction false} WordEnds(text: string)
    ensures var n := WordLength(text); NoSpace(text[..n]) && (n < |text| ==> IsSpace(text[n]))
    decreases |text|
  {
    if text != "" && !IsSpace(text[0]) {
      var n := WordLength(text);
      WordEnds(text[1..]);
      assert text[1..][..n - 1] == text[..n][1..];
      forall i | 0 <= i < n ensures !IsSpace(text[..n][i]) {
        assert i > 0 ==> text[..n][i] == text[1..][..n - 1][i - 1];
      }
    }
  }

  /** What is kept of a head: a word with white space behind it that contains extern is left out, and a
      blank takes its place. The word in front of the parameter list is kept whatever it is. */
  function Kept(p: Pen, head: string): Pen
    decreases |head|
  {
    var n := WordLength(head);
    if n == |head| then WriteAll(p, head)
    else Kept(if Contains(head[..n], "extern") then Pen(p.text, true, true) else WriteAll(p, head[..n + 1]), head[n + 1..])
  }

  predicate LosesWord(head: string)
    decreases |head|
  {
    var n := WordLength(head);
    n < |head| && (Contains(head[..n], "extern") || LosesWord(head[n + 1..]))
  }

  function Blank(p: Pen): string { if p.inWhitespace && p.spaceNeeded then " " else "" }

  lemma {:induction false} WriteInWord(p: Pen, c: char)
    requires !IsSpace(c) && c != ')'
    ensures Write(p, c).text == p.text + Blank(p) + [c] && Blank(Write(p, c)) == ""
  {
  }

  /** A word is written as it is, behind a blank where one is due. */
  lemma {:induction false} WordText(p: Pen, word: string)
    requires Words(word) && NoSpace(word)
    ensures WriteAll(p, word).text == p.text + (if word == "" then "" else Blank(p) + word)
    decreases |word|
  {
    hide Write, Blank;
    if word != "" {
      WriteInWord(p, word[0]);
      WordText(Write(p, word[0]), word[1..]);
      assert Blank(p) + word == Blank(p) + [word[0]] + word[1..];
      assert p.text + (Blank(p) + word) == p.text + Blank(p) + [word[0]] + word[1..];
    }
  }

  lemma {:induction false} BehindBlank(word: string)
    ensures Contains(" " + word, "extern") <==> Contains(word, "extern")
    ensures !Contains("", "extern")
  {
    var s := " " + word;
    forall i | 0 <= i <= |word| ensures OccursAt(s, "extern", i + 1) <==> OccursAt(word, "extern", i) {
      assert i + 6 <= |word| ==> s[i + 1..i + 7] == word[i..i + 6];
    }
    if Contains(s, "extern") {
      var i :| 0 <= i <= |s| && OccursAt(s, "extern", i);
      assert s[i] == "extern"[0];
      assert OccursAt(word, "extern", i - 1);
    }
    if Contains(word, "extern") {
      var i :| 0 <= i <= |word| && OccursAt(word, "extern", i);
      assert OccursAt(s, "extern", i + 1);
    }
  }

  lemma {:induction false} WordStep(d: Detector, c: char, next: int)
    requires d.phase == BeforeParameterList && Idle(d.scanner, 0) && Plain(c) && c != '(' && c != ')' && !IsSpace(c)
    ensures var e := Push(d, c, next);
      && e.phase == BeforeParameterList && Idle(e.scanner, 0) && e.out == d.out && e.ret == d.ret
      && Joined(e) == Write(Joined(d), c)
  {
    hide Step, Contains, WriteChar, Write;
    PlainStep(d.scanner, c, next);
    var e := d.(scanner := Step(d.scanner, c, next));
    WriteJoined(e, c);
    WriteFrame(e, c);
  }

  lemma {:induction false} WriteFrame(d: Detector, c: char)
    ensures var e := WriteChar(d, c);
      e.phase == d.phase && e.out == d.out && e.ret == d.ret && e.scanner == d.scanner
  {
  }

  lemma {:induction false} RunWord(d: Detector, word: string, last: int)
    requires d.phase == BeforeParameterList && Idle(d.scanner, 0) && Words(word) && NoSpace(word)
    ensures var e := Run(d, word, last);
      && e.phase == BeforeParameterList && Idle(e.scanner, 0) && e.out == d.out && e.ret == d.ret
      && Joined(e) == WriteAll(Joined(d), word)
    decreases |word|
  {
    hide Push, Step, Write;
    if word != "" {
      var next := First(word[1..], last);
      assert Plain(word[0]);
      WordStep(d, word[0], next);
      RunWord(Push(d, word[0], next), word[1..], last);
    }
  }

  /** The white space behind a word decides about it. */
  lemma {:induction false} SpaceStep(d: Detector, c: char, next: int)
    requires d.phase == BeforeParameterList && Idle(d.scanner, 0) && IsSpace(c)
    ensures var e := Push(d, c, next);
      && e.phase == BeforeParameterList && Idle(e.scanner, 0) && e.out == d.out && e.cur == ""
      && Joined(e) == if Contains(d.cur, "extern") then Pen(d.ret, true, true) else Write(Joined(d), c)
  {
    hide Step, Contains;
    PlainStep(d.scanner, c, next);
    assert d.ret + "" == d.ret;
    assert d.ret + d.cur + "" == d.ret + d.cur;
  }

  /** Behind a word the stream of the current word holds it, and maybe a blank. */
  lemma {:induction false} WordInCur(d: Detector, word: string, last: int)
    requires d.phase == BeforeParameterList && Idle(d.scanner, 0) && Words(word) && NoSpace(word) && d.cur == ""
    ensures var e := Run(d, word, last);
      && e.phase == BeforeParameterList && Idle(e.scanner, 0) && e.out == d.out && e.ret == d.ret == Joined(d).text
      && Joined(e) == WriteAll(Joined(d), word)
      && (Contains(e.cur, "extern") <==> Contains(word, "extern"))
  {
    hide Run, WriteAll, Idle, Words, NoSpace, Contains, Blank;
    RunWord(d, word, last);
    var e := Run(d, word, last);
    assert d.ret + "" == d.ret;
    WordText(Joined(d), word);
    SameTail(d.ret, e.cur, if word == "" then "" else Blank(Joined(d)) + word);
    ExternInWord(Joined(d), word);
  }

  lemma {:induction false} RunHead(d: Detector, head: string, last: int)
    requires d.phase == BeforeParameterList && Idle(d.scanner, 0) && Words(head) && d.cur == ""
    ensures var e := Run(d, head, last);
      e.phase == BeforeParameterList && Idle(e.scanner, 0) && e.out == d.out && Joined(e) == Kept(Joined(d), head)
    decreases |head|
  {
    hide Push, Step, Write, Contains, Blank;
    var n := WordLength(head);
    WordEnds(head);
    if n == |head| {
      assert head[..n] == head;
      RunWord(d, head, last);
    } else {
      var word, c, rest := head[..n], head[n], head[n + 1..];
      assert head == word + head[n..] && head[n..][1..] == rest;
      WordsPart(head, n);
      RunAppend(d, word, head[n..], last);
      WordInCur(d, word, c as int);
      var e := Run(d, word, c as int);
      var next := First(rest, last);
      SpaceStep(e, c, next);
      WriteOneMore(Joined(d), word, c);
      assert head[..n + 1] == word + [c];
      RunHead(Push(e, c, next), rest, last);
    }
  }

  lemma {:induction false} WordsPart(head: string, n: nat)
    requires Words(head) && n < |head|
    ensures Words(head[..n]) && Words(head[n + 1..])
  {
    var rest := head[n + 1..];
    forall i | 0 <= i < |rest| ensures Plain(rest[i]) && rest[i] != '(' && rest[i] != ')' {
      assert rest[i] == head[n + 1 + i];
    }
  }

  lemma {:induction false} SameTail(a: string, b: string, c: string)
    requires a + b == a + c
    ensures b == c
  {
    assert (a + b)[|a|..] == b && (a + c)[|a|..] == c;
  }

  lemma {:induction false} ExternInWord(p: Pen, word: string)
    ensures Contains(if word == "" then "" else Blank(p) + word, "extern") <==> Contains(word, "extern")
  {
    BehindBlank(word);
    assert "" + word == word;
  }

  lemma {:induction false} WriteOneMore(p: Pen, word: string, c: char)
    ensures WriteAll(p, word + [c]) == Write(WriteAll(p, word), c)
  {
    WriteAllAppend(p, word, [c]);
    assert [c][1..] == "";
  }

  /** Plain text whose parentheses stay open down to depth 1. */
  predicate Inside(text: string, depth: int)
    decreases |text|
  {
    if text == "" then depth == 1
    else
      var k := depth + Change(text[0], '(', ')');
      Plain(text[0]) && k >= 1 && Inside(text[1..], k)
  }

  lemma {:induction false} RunList(d: Detector, text: string, last: int)
    requires d.phase == InParameterList && Idle(d.scanner, d.scanner.callLevel) && Inside(text, d.scanner.callLevel)
    ensures var e := Run(d, text, last);
      e.phase == InParameterList && Idle(e.scanner, 1) && e.out == d.out && Joined(e) == WriteAll(Joined(d), text)
    decreases |text|
  {
    hide Step, WriteChar, Write;
    if text != "" {
      var c, next := text[0], First(text[1..], last);
      PlainStep(d.scanner, c, next);
      var e := d.(scanner := Step(d.scanner, c, next));
      WriteJoined(e, c);
      WriteFrame(e, c);
      assert Push(d, c, next) == WriteChar(e, c);
      RunList(Push(d, c, next), text[1..], last);
    }
  }

  /** An item that is given up stays so within its parameter list, and white space changes nothing. */
  lemma {:induction false} RunBusted(d: Detector, text: string, last: int)
    requires d.phase == Busted && Idle(d.scanner, d.scanner.callLevel) && Inside(text, d.scanner.callLevel)
    ensures var e := Run(d, text, last);
      e.phase == Busted && Idle(e.scanner, 1) && e.out == d.out
    decreases |text|
  {
    hide Step;
    if text != "" {
      var c, next := text[0], First(text[1..], last);
      PlainStep(d.scanner, c, next);
      RunBusted(Push(d, c, next), text[1..], last);
    }
  }

  lemma {:induction false} RunGap(d: Detector, gap: string, last: int)
    requires d.phase == AfterParameterList || d.phase == Busted
    requires Idle(d.scanner, 0) && AllSpace(gap)
    ensures var e := Run(d, gap, last);
      e.phase == d.phase && Idle(e.scanner, 0) && e.out == d.out && e.ret == d.ret
    decreases |gap|
  {
    hide Step;
    if gap != "" {
      var next := First(gap[1..], last);
      assert IsSpace(gap[0]);
      PlainStep(d.scanner, gap[0], next);
      RunGap(Push(d, gap[0], next), gap[1..], last);
    }
  }

  lemma {:induction false} OpenList(d: Detector, next: int)
    requires d.phase == BeforeParameterList && Idle(d.scanner, 0)
    ensures var e, head := Push(d, '(', next), Joined(d).text;
      && Idle(e.scanner, 1) && e.out == d.out
      && (if Contains(head, "static") || Contains(head, "inline") then e.phase == Busted
          else e.phase == InParameterList && Joined(e) == Write(Joined(d), '('))
  {
    hide Step, Contains, WriteChar, Write;
    PlainStep(d.scanner, '(', next);
    var e := d.(scanner := Step(d.scanner, '(', next));
    var f := FlushCur(e).(phase := InParameterList);
    WriteJoined(e, '(');
    WriteJoined(f, '(');
    WriteFrame(f, '(');
    WriteFrame(f.(phase := Busted), '(');
  }

  lemma {:induction false} CloseList(d: Detector, next: int)
    requires (d.phase == InParameterList || d.phase == Busted) && Idle(d.scanner, 1)
    ensures var e := Push(d, ')', next);
      && Idle(e.scanner, 0) && e.out == d.out
      && (if d.phase == Busted then e.phase == Busted
          else e.phase == AfterParameterList && e.ret == Write(Joined(d), ')').text)
  {
    hide Step, WriteChar, Write;
    PlainStep(d.scanner, ')', next);
    var e := d.(scanner := Step(d.scanner, ')', next));
    WriteJoined(e, ')');
    WriteFrame(e, ')');
  }

  /** Whether a block closes does not depend on the levels of other brackets. */
  lemma {:induction false} ClosesAtAnyLevel(s: Scanner, t: Scanner, text: string)
    requires t == s.(callLevel := t.callLevel, indexLevel := t.indexLevel) && Closes(s, text)
    ensures Closes(t, text)
    decreases |text|
  {
    var next := First(text[1..], EOF);
    var a, b := Step(s, text[0], next), Step(t, text[0], next);
    assert b == a.(callLevel := b.callLevel, indexLevel := b.indexLevel);
    if |text| > 1 {
      ClosesAtAnyLevel(a, b, text[1..]);
    }
  }

  /** From the closing parenthesis on: a gap and a body, and the declaration is copied or dropped. */
  lemma {:induction false} RunGapAndBody(d: Detector, gap: string, body: string)
    requires d.phase == AfterParameterList || d.phase == Busted
    requires Idle(d.scanner, 0) && AllSpace(gap) && Block(START, body)
    ensures Run(d, gap + body, EOF).out == d.out + Gain(d)
  {
    hide Step, Push, Contains;
    RunAppend(d, gap, body, EOF);
    RunGap(d, gap, '{' as int);
    var e := Run(d, gap, '{' as int);
    var next := First(body[1..], EOF);
    OpenBrace(e, next);
    BraceOnly(e, next);
    BraceOnly(Fresh("", true), EOF);
    ClosesAtAnyLevel(Step(START, '{', EOF), Step(e.scanner, '{', EOF), body[1..]);
    BodyIsSkipped(Push(e, '{', next), body[1..], EOF);
  }

  lemma {:induction false} BraceOnly(d: Detector, next: int)
    requires Idle(d.scanner, d.scanner.callLevel)
    ensures Step(d.scanner, '{', EOF)
      == Scanner(Normal, false, false, 0, 1, d.scanner.callLevel, d.scanner.indexLevel)
    ensures d.phase == AfterParameterList || d.phase == Busted ==>
      var e := Push(d, '{', next); e.phase == d.phase && e.out == d.out && e.ret == d.ret
  {
  }

  /** From a definition exactly its declaration is copied, with white space normalised and without words
      that contain extern, unless it is static or inline; then nothing is. */
  lemma {:induction false} DefinitionIsCopied(head: string, params: string, gap: string, body: string)
    requires Words(head) && Inside(params, 1) && AllSpace(gap) && Block(START, body)
    ensures Output(head + ("(" + (params + (")" + (gap + body))))) ==
      if Contains(Copied(head, ""), "static") || Contains(Copied(head, ""), "inline") then ""
      else Copied(head, "(" + (params + ")")) + ";\n"
  {
    hide Step, Push, Contains, Write, Closes;
    var f := Fresh("", true);
    assert Joined(f) == PEN;
    var rest := params + (")" + (gap + body));
    var d1 := Run(f, head, '(' as int);
    RunAppend(f, head, "(" + rest, EOF);
    RunHead(f, head, '(' as int);
    var d2 := Push(d1, '(', First(rest, EOF));
    OpenList(d1, First(rest, EOF));
    assert ("(" + rest)[1..] == rest;
    assert Run(d1, "(" + rest, EOF) == Run(d2, rest, EOF);
    RunAppend(d2, params, ")" + (gap + body), EOF);
    var d3 := Run(d2, params, ')' as int);
    if d2.phase == Busted {
      RunBusted(d2, params, ')' as int);
    } else {
      RunList(d2, params, ')' as int);
      assert ("(" + (params + ")"))[1..] == params + ")";
      WriteAllAppend(Joined(d2), params, ")");
      assert ")"[1..] == "";
    }
    CloseList(d3, First(gap + body, EOF));
    var d4 := Push(d3, ')', First(gap + body, EOF));
    assert (")" + (gap + body))[1..] == gap + body;
    assert Run(d3, ")" + (gap + body), EOF) == Run(d4, gap + body, EOF);
    RunGapAndBody(d4, gap, body);
    assert "" + Gain(d4) == Gain(d4);
  }

  // ---- The copy in terms of the text ----

  /** The copy of a head and of what follows it. */
  function Copied(head: string, list: string): string { WriteAll(Kept(PEN, head), list).text }

  /** A text behind another, with a blank between them unless nothing or a blank comes next. */
  function Spaced(s: string, t: string): string { s + (if t == "" || t[0] == ' ' then "" else " ") + t }

  /** Nothing, or a parameter list. */
  predicate ListOrNothing(list: string) { list == "" || list[0] == '(' }

  /** The pen moved behind a text. */
  function BehindText(t: string, p: Pen): Pen { p.(text := t + p.text) }

  lemma {:induction false} WriteBehindText(t: string, p: Pen, c: char)
    ensures Write(BehindText(t, p), c) == BehindText(t, Write(p, c))
  {
    var blank := if p.inWhitespace && p.spaceNeeded then " " else "";
    assert t + p.text + ")" == t + (p.text + ")");
    assert t + p.text + blank + [c] == t + (p.text + blank + [c]);
  }

  lemma {:induction false} AllBehindText(t: string, p: Pen, text: string)
    ensures WriteAll(BehindText(t, p), text) == BehindText(t, WriteAll(p, text))
    decreases |text|
  {
    hide Write;
    if text != "" {
      WriteBehindText(t, p, text[0]);
      AllBehindText(t, Write(p, text[0]), text[1..]);
    }
  }

  lemma {:induction false} KeptBehindText(t: string, p: Pen, head: string)
    ensures Kept(BehindText(t, p), head) == BehindText(t, Kept(p, head))
    decreases |head|
  {
    hide Contains, WriteAll;
    var n := WordLength(head);
    if n == |head| {
      AllBehindText(t, p, head);
    } else if Contains(head[..n], "extern") {
      assert t + p.text == BehindText(t, p).text;
      KeptBehindText(t, Pen(p.text, true, true), head[n + 1..]);
    } else {
      AllBehindText(t, p, head[..n + 1]);
      KeptBehindText(t, WriteAll(p, head[..n + 1]), head[n + 1..]);
    }
  }

  /** A pen with nothing written that owes a blank writes what one that owes none writes, behind the blank. */
  lemma {:induction false} OwedBlank(text: string)
    requires text != "" && text[0] != ')' && !IsSpace(text[0])
    ensures WriteAll(Pen("", true, true), text) == BehindText(" ", WriteAll(PEN, text))
    ensures var s := WriteAll(PEN, text).text; s != "" && s[0] == text[0]
  {
    var c := text[0];
    assert Write(PEN, c).text == [c] && Write(Pen("", true, true), c).text == " " + [c];
    assert Write(Pen("", true, true), c) == BehindText(" ", Write(PEN, c));
    AllBehindText(" ", Write(PEN, c), text[1..]);
    WriteGrows(Write(PEN, c), text[1..]);
  }

  /** The same across a head. */
  lemma {:induction false} OwedByHead(head: string, list: string)
    requires Words(head) && ListOrNothing(list)
    ensures WriteAll(Kept(Pen("", true, true), head), list).text == Spaced("", Copied(head, list))
    decreases |head|
  {
    hide Contains, Write, WriteAll;
    var owes := Pen("", true, true);
    var n := WordLength(head);
    WordEnds(head);
    if n == |head| {
      OwedLast(head, list);
    } else if Contains(head[..n], "extern") {
      WordsPart(head, n);
      OwedByHead(head[n + 1..], list);
      assert "" + Spaced("", Copied(head[n + 1..], list)) == Spaced("", Copied(head[n + 1..], list));
      SpacedTwice(Copied(head[n + 1..], list));
    } else if n == 0 {
      assert head[..1] == [head[0]];
      WriteSpace(owes, head[0]);
      WriteSpace(PEN, head[0]);
      WordsPart(head, 0);
      OwedByHead(head[1..], list);
    } else {
      var word, rest := head[..n + 1], head[n + 1..];
      assert word[0] == head[0] && word[..n] == head[..n];
      OwedBlank(word);
      var p := WriteAll(PEN, word);
      KeptBehindText(" ", p, rest);
      AllBehindText(" ", Kept(p, rest), list);
      KeptGrows(p, rest);
      WriteGrows(Kept(p, rest), list);
      assert Copied(head, list)[0] == p.text[0] == head[0];
      assert "" + " " + Copied(head, list) == " " + Copied(head, list);
    }
  }

  lemma {:induction false} WriteSpace(p: Pen, c: char)
    requires IsSpace(c)
    ensures WriteAll(p, [c]) == p.(inWhitespace := true)
  {
    assert [c][1..] == "";
  }

  lemma {:induction false} SpacedTwice(s: string)
    ensures Spaced("", Spaced("", s)) == Spaced("", s)
  {
  }

  lemma {:induction false} KeptGrows(p: Pen, head: string)
    ensures p.text <= Kept(p, head).text
    decreases |head|
  {
    hide Contains, Write;
    var n := WordLength(head);
    if n == |head| {
      WriteGrows(p, head);
    } else {
      WriteGrows(p, head[..n + 1]);
      KeptGrows(if Contains(head[..n], "extern") then Pen(p.text, true, true) else WriteAll(p, head[..n + 1]), head[n + 1..]);
    }
  }

  lemma {:induction false} OwedLast(word: string, list: string)
    requires Words(word) && NoSpace(word) && ListOrNothing(list)
    ensures WriteAll(WriteAll(Pen("", true, true), word), list).text == Spaced("", WriteAll(WriteAll(PEN, word), list).text)
  {
    var owes, all := Pen("", true, true), word + list;
    WriteAllAppend(owes, word, list);
    WriteAllAppend(PEN, word, list);
    if all != "" {
      OwedBlank(all);
    }
  }

  /** A head of which no word is lost is copied with what follows it as one text. */
  lemma {:induction false} WholeHead(head: string, list: string)
    requires !LosesWord(head)
    ensures Copied(head, list) == Tidy(head + list)
  {
    KeptWhole(PEN, head);
    WriteAllAppend(PEN, head, list);
  }

  /** In place of a word that is lost stands one blank, in front of the copy of what follows the word. */
  lemma {:induction false} LostWord(before: string, word: string, space: char, after: string, list: string)
    requires !LosesWord(before) && (before == "" || IsSpace(before[|before| - 1]))
    requires NoSpace(word) && Contains(word, "extern") && IsSpace(space) && Words(after) && ListOrNothing(list)
    ensures Copied(before + word + [space] + after, list) == Spaced(Tidy(before), Copied(after, list))
  {
    hide Contains, Write, LosesWord, WriteAll;
    var tail := word + [space] + after;
    assert before + word + [space] + after == before + tail;
    KeptPart(PEN, before, tail);
    var p := WriteAll(PEN, before);
    WordLengthOf(word, [space] + after);
    assert word + ([space] + after) == tail;
    assert tail[..|word|] == word && tail[|word| + 1..] == after;
    assert Kept(p, tail) == Kept(Pen(p.text, true, true), after);
    var owes := Pen("", true, true);
    assert p.text + "" == p.text;
    assert BehindText(p.text, owes) == Pen(p.text, true, true);
    KeptBehindText(p.text, owes, after);
    AllBehindText(p.text, Kept(owes, after), list);
    OwedByHead(after, list);
    SpacedBehind(p.text, Copied(after, list));
  }

  lemma {:induction false} SpacedBehind(s: string, t: string)
    ensures s + Spaced("", t) == Spaced(s, t)
  {
    var blank := if t == "" || t[0] == ' ' then "" else " ";
    assert s + ("" + blank + t) == s + blank + t;
  }

  lemma {:induction false} WordLengthOf(word: string, rest: string)
    requires NoSpace(word) && rest != "" && IsSpace(rest[0])
    ensures WordLength(word + rest) == |word|
    decreases |word|
  {
    if word == "" {
      assert word + rest == rest;
    } else {
      assert (word + rest)[1..] == word[1..] + rest;
      WordLengthOf(word[1..], rest);
    }
  }

  lemma {:induction false} FirstWord(head: string)
    requires head != "" && IsSpace(head[|head| - 1])
    ensures WordLength(head) < |head|
  {
    WordEnds(head);
    assert head[..|head|] == head;
  }

  lemma {:induction false} KeepsFirst(head: string)
    requires !LosesWord(head) && WordLength(head) < |head|
    ensures var n := WordLength(head); !Contains(head[..n], "extern") && !LosesWord(head[n + 1..])
  {
  }

  lemma {:induction false} KeptFirst(p: Pen, word: string, rest: string)
    requires NoSpace(word) && rest != "" && IsSpace(rest[0]) && !Contains(word, "extern")
    ensures Kept(p, word + rest) == Kept(WriteAll(p, word + [rest[0]]), rest[1..])
  {
    hide Contains, WriteAll;
    WordLengthOf(word, rest);
    var all, n := word + rest, |word|;
    assert all[..n] == word && all[..n + 1] == word + [rest[0]] && all[n + 1..] == rest[1..];
  }

  lemma {:induction false} KeptPart(p: Pen, before: string, tail: string)
    requires !LosesWord(before) && (before == "" || IsSpace(before[|before| - 1]))
    ensures Kept(p, before + tail) == Kept(WriteAll(p, before), tail)
    decreases |before|
  {
    hide Contains, Write, LosesWord, Kept, WordLength;
    if before == "" {
      assert before + tail == tail;
      assert WriteAll(p, "") == p;
    } else {
      hide WriteAll;
      FirstWord(before);
      KeepsFirst(before);
      WordEnds(before);
      var n := WordLength(before);
      var word, rest := before[..n], before[n + 1..];
      var first := word + [before[n]];
      assert before == first + rest && before + tail == word + (before[n..] + tail);
      KeptFirst(p, word, before[n..] + tail);
      assert (before[n..] + tail)[1..] == rest + tail;
      KeptPart(WriteAll(p, first), rest, tail);
      WriteAllAppend(p, first, rest);
    }
  }

  /** Every word left out takes its characters with it. */
  lemma {:induction false} KeptInk(p: Pen, head: string)
    ensures |Ink(Kept(p, head).text)| <= |Ink(p.text)| + |Ink(head)|
    ensures LosesWord(head) ==> |Ink(Kept(p, head).text)| < |Ink(p.text)| + |Ink(head)|
    decreases |head|
  {
    hide Contains, Write, Ink;
    var n := WordLength(head);
    WordEnds(head);
    if n == |head| {
      WriteAllInk(p, head);
    } else {
      var word, rest := head[..n + 1], head[n + 1..];
      assert head == word + rest && word == head[..n] + [head[n]];
      InkAppend(word, rest);
      InkAppend(head[..n], [head[n]]);
      InkOfWord(head[..n]);
      WriteAllInk(p, word);
      if Contains(head[..n], "extern") {
        ExternIsLong(head[..n]);
        KeptInk(Pen(p.text, true, true), rest);
      } else {
        KeptInk(WriteAll(p, word), rest);
      }
    }
  }

  lemma {:induction false} KeptWhole(p: Pen, head: string)
    requires !LosesWord(head)
    ensures Kept(p, head) == WriteAll(p, head)
    decreases |head|
  {
    hide Contains, Write;
    var n := WordLength(head);
    if n < |head| {
      assert head == head[..n + 1] + head[n + 1..];
      WriteAllAppend(p, head[..n + 1], head[n + 1..]);
      KeptWhole(WriteAll(p, head[..n + 1]), head[n + 1..]);
    }
  }

  /** The head is copied whole exactly when no word with white space behind it contains extern. */
  lemma {:induction false} HeadIsWhole(head: string)
    ensures Copied(head, "") == Tidy(head) <==> !LosesWord(head)
  {
    hide LosesWord, Kept, Ink;
    var p := PEN;
    assert Copied(head, "") == Kept(p, head).text;
    hide WriteAll;
    KeptInk(p, head);
    WriteAllInk(p, head);
    if !LosesWord(head) {
      KeptWhole(p, head);
    }
  }
}
