/** The character classifier of the C declaration extractor, and the lexer that it refines: a lexer
    cuts the whole text into strings, character constants, comments, directives and normal text. */
module Classifier {

  datatype Class = Normal | Directive | CharConstant | String | LineComment | BlockComment

  const EOF := -1

  function At(text: string, i: int): int {
    if 0 <= i < |text| then text[i] as int else EOF
  }

  predicate OccursAt(s: string, w: string, i: nat) { i + |w| <= |s| && s[i..i + |w|] == w }

  predicate Contains(s: string, w: string) { exists i | 0 <= i <= |s| :: OccursAt(s, w, i) }

  // ---- The classifier's state and step ----

  datatype Scanner = Scanner(
    state: Class, atLineStart: bool, inEscape: bool, backToNormal: nat,
    blockLevel: int, callLevel: int, indexLevel: int)

  const START := Scanner(Normal, true, false, 0, 0, 0, 0)

  function Change(c: char, open: char, close: char): int { if c == open then 1 else if c == close then -1 else 0 }

  /** What a character does in normal text; `next` is the character after it. */
  function InNormal(s: Scanner, c: char, next: int): Scanner {
    s.(state :=
         if c == '"' then String
         else if c == '\'' then CharConstant
         else if c == '/' && next == '/' as int then LineComment
         else if c == '/' && next == '*' as int then BlockComment
         else if s.atLineStart && c == '#' then Directive
         else Normal,
       blockLevel := s.blockLevel + Change(c, '{', '}'),
       callLevel := s.callLevel + Change(c, '(', ')'),
       indexLevel := s.indexLevel + Change(c, '[', ']'))
  }

  function InState(s: Scanner, c: char, next: int): Scanner {
    match s.state
    case Normal => InNormal(s, c, next)
    case Directive => if !s.inEscape && c == '\n' then s.(state := Normal) else s
    case LineComment => if !s.inEscape && c == '\n' then s.(state := Normal) else s
    case CharConstant => if !s.inEscape && c == '\'' then s.(backToNormal := 1) else s
    case String => if !s.inEscape && c == '"' then s.(backToNormal := 1) else s
    case BlockComment => if c == '*' && next == '/' as int then s.(backToNormal := 2) else s
  }

  /** The end of a token is remembered in a countdown. */
  function Countdown(s: Scanner): Scanner {
    if s.backToNormal == 0 then s
    else if s.backToNormal == 1 then s.(backToNormal := 0, state := Normal)
    else s.(backToNormal := s.backToNormal - 1)
  }

  predicate IsBlank(c: char) { c == '\t' || c == ' ' }

  /** Line starts and escapes are tracked in every state. */
  function Track(s: Scanner, c: char): Scanner {
    s.(atLineStart := (!s.inEscape && c == '\n') || (IsBlank(c) && s.atLineStart),
       inEscape := !s.inEscape && c == '\\')
  }

  function Step(s: Scanner, c: char, next: int): Scanner {
    var t := Countdown(s);
    Track(if t.backToNormal == 0 then InState(t, c, next) else t, c)
  }

  /** The classes of all characters of a text that `last` follows. */
  function Classes(s: Scanner, text: string, last: int): seq<Class>
    decreases |text|
  {
    if text == "" then []
    else
      var t := Step(s, text[0], if |text| > 1 then text[1] as int else last);
      [t.state] + Classes(t, text[1..], last)
  }

  function Scan(s: Scanner, text: string, last: int): Scanner
    decreases |text|
  {
    if text == "" then s
    else Scan(Step(s, text[0], if |text| > 1 then text[1] as int else last), text[1..], last)
  }

  // ---- The lexer ----

  datatype Token = Token(kind: Class, text: string)

  /** The end of a quoted token's rest: behind the first quote that is not escaped. */
  function QuoteEnd(s: string, quote: char, escaped: bool): (k: nat)
    ensures k <= |s|
  {
    if s == "" then 0
    else if !escaped && s[0] == quote then 1
    else 1 + QuoteEnd(s[1..], quote, !escaped && s[0] == '\\')
  }

  /** The end of a directive's or a line comment's rest: in front of the first newline that is not escaped. */
  function LineEnd(s: string, escaped: bool): (k: nat)
    ensures k <= |s|
  {
    if s == "" || (!escaped && s[0] == '\n') then 0
    else 1 + LineEnd(s[1..], !escaped && s[0] == '\\')
  }

  /** The end of a block comment's rest: behind the first closing pair. */
  function CommentEnd(s: string): (k: nat)
    ensures k <= |s|
  {
    if s == "" then 0
    else if |s| > 1 && s[0] == '*' && s[1] == '/' then 2
    else 1 + CommentEnd(s[1..])
  }

  /** The kind of the token that begins here, in a context where lines may start. */
  function KindOf(s: string, lineStart: bool): Class
    requires s != ""
  {
    if s[0] == '"' then String
    else if s[0] == '\'' then CharConstant
    else if s[0] == '/' && |s| > 1 && s[1] == '/' then LineComment
    else if s[0] == '/' && |s| > 1 && s[1] == '*' then BlockComment
    else if lineStart && s[0] == '#' then Directive
    else Normal
  }

  /** The length of the token that begins here. In C the search for the end of a block comment skips the
      two opening characters; with `skip` = 1 the star that opens a comment may also close it. */
  function TokenLength(s: string, lineStart: bool, skip: nat): (k: nat)
    requires s != "" && 1 <= skip <= 2
    ensures 1 <= k <= |s|
  {
    match KindOf(s, lineStart)
    case Normal => 1
    case String => 1 + QuoteEnd(s[1..], '"', false)
    case CharConstant => 1 + QuoteEnd(s[1..], '\'', false)
    case LineComment => 1 + LineEnd(s[1..], false)
    case Directive => 1 + LineEnd(s[1..], false)
    case BlockComment => skip + CommentEnd(s[skip..])
  }

  /** The tokens of a text. Normal text makes tokens of one character each. Only normal characters carry
      line starts and escapes on. */
  function Lex(s: string, lineStart: bool, escaped: bool, skip: nat): seq<Token>
    requires 1 <= skip <= 2
    decreases |s|
  {
    if s == "" then []
    else
      var kind := KindOf(s, lineStart);
      var k := TokenLength(s, lineStart, skip);
      [Token(kind, s[..k])] +
      if kind == Normal then
        Lex(s[1..], (!escaped && s[0] == '\n') || (IsBlank(s[0]) && lineStart), !escaped && s[0] == '\\', skip)
      else
        Lex(s[k..], false, false, skip)
  }

  function Repeat(c: Class, n: nat): seq<Class> { if n == 0 then [] else [c] + Repeat(c, n - 1) }

  function Spread(ts: seq<Token>): seq<Class>
    decreases |ts|
  {
    if ts == [] then [] else Repeat(ts[0].kind, |ts[0].text|) + Spread(ts[1..])
  }

  function Join(ts: seq<Token>): string
    decreases |ts|
  {
    if ts == [] then "" else ts[0].text + Join(ts[1..])
  }

  lemma {:induction false} LexFirst(s: string, lineStart: bool, escaped: bool, skip: nat)
    requires s != "" && 1 <= skip <= 2
    ensures var k, ts := TokenLength(s, lineStart, skip), Lex(s, lineStart, escaped, skip);
      && ts != [] && ts[0].text == s[..k]
      && (KindOf(s, lineStart) == Normal ==> k == 1)
      && ts[1..] == if KindOf(s, lineStart) == Normal
        then Lex(s[1..], (!escaped && s[0] == '\n') || (IsBlank(s[0]) && lineStart), !escaped && s[0] == '\\', skip)
        else Lex(s[k..], false, false, skip)
  {
    hide QuoteEnd, LineEnd, CommentEnd;
  }

  lemma {:induction false} JoinFirst(ts: seq<Token>, s: string, k: nat)
    requires ts != [] && k <= |s| && ts[0].text == s[..k] && Join(ts[1..]) == s[k..]
    ensures Join(ts) == s
  {
  }

  /** The tokens cover the text. */
  lemma {:induction false} LexCovers(s: string, lineStart: bool, escaped: bool, skip: nat)
    requires 1 <= skip <= 2
    ensures Join(Lex(s, lineStart, escaped, skip)) == s
    decreases |s|
  {
    if s != "" {
      var k := TokenLength(s, lineStart, skip);
      LexFirst(s, lineStart, escaped, skip);
      hide Lex, TokenLength, KindOf, Join;
      if KindOf(s, lineStart) == Normal {
        LexCovers(s[1..], (!escaped && s[0] == '\n') || (IsBlank(s[0]) && lineStart), !escaped && s[0] == '\\', skip);
      } else {
        LexCovers(s[k..], false, false, skip);
      }
      JoinFirst(Lex(s, lineStart, escaped, skip), s, k);
    }
  }

  // ---- The classifier refines the lexer ----

  /** The state behind a token that closes itself. */
  function Behind(s: Scanner): Scanner { s.(state := Normal, backToNormal := 0, atLineStart := false, inEscape := false) }

  /** A pending return to normal text is the same as being back. */
  lemma {:induction false} PendingIsNormal(s: Scanner, text: string, last: int)
    requires s.backToNormal == 1
    ensures Classes(s, text, last) == Classes(s.(backToNormal := 0, state := Normal), text, last)
  {
  }

  lemma {:induction false} QuoteStep(s: Scanner, c: char, next: int, quote: char)
    requires s.backToNormal == 0
    requires (s.state == String && quote == '"') || (s.state == CharConstant && quote == '\'')
    ensures var t := Step(s, c, next);
      if !s.inEscape && c == quote then t == Behind(s).(state := s.state, backToNormal := 1)
      else t == s.(atLineStart := t.atLineStart, inEscape := !s.inEscape && c == '\\')
  {
  }

  lemma {:induction false} FirstClass(s: Scanner, text: string)
    requires text != ""
    ensures var t := Step(s, text[0], At(text, 1));
      Classes(s, text, EOF) == [t.state] + Classes(t, text[1..], EOF)
  {
  }

  lemma {:induction false} RepeatMore(c: Class, k: nat, rest: seq<Class>)
    ensures Repeat(c, k + 1) == [c] + Repeat(c, k)
    ensures Repeat(c, k + 1) + rest == [c] + (Repeat(c, k) + rest)
    ensures Repeat(c, 0) + rest == rest && Repeat(c, 1) + rest == [c] + rest
  {
    assert Repeat(c, 1) == [c] + Repeat(c, 0);
  }

  /** Inside a quoted token: the classes up to its end, and what follows. */
  lemma {:induction false} InQuotes(s: Scanner, text: string, quote: char)
    requires s.backToNormal == 0
    requires (s.state == String && quote == '"') || (s.state == CharConstant && quote == '\'')
    ensures var k := QuoteEnd(text, quote, s.inEscape);
      Classes(s, text, EOF) == Repeat(s.state, k) + Classes(Behind(s), text[k..], EOF)
    decreases |text|
  {
    hide Step;
    if text != "" {
      hide Classes, Repeat;
      var t := Step(s, text[0], At(text, 1));
      var k := QuoteEnd(text, quote, s.inEscape);
      QuoteStep(s, text[0], At(text, 1), quote);
      FirstClass(s, text);
      RepeatMore(s.state, k - 1, Classes(Behind(s), text[k..], EOF));
      if !s.inEscape && text[0] == quote {
        PendingIsNormal(t, text[1..], EOF);
        RepeatMore(s.state, 0, Classes(Behind(s), text[1..], EOF));
      } else {
        InQuotes(t, text[1..], quote);
        assert text[1..][k - 1..] == text[k..];
      }
    }
  }

  lemma {:induction false} CommentStep(s: Scanner, c: char, next: int)
    requires s.backToNormal == 0 && s.state == BlockComment
    ensures var t := Step(s, c, next);
      if c == '*' && next == '/' as int then t == s.(backToNormal := 2, atLineStart := false, inEscape := false)
      else t == s.(atLineStart := t.atLineStart, inEscape := t.inEscape)
  {
  }

  lemma {:induction false} ClosingSlash(s: Scanner, next: int)
    requires s.backToNormal == 2 && s.state == BlockComment
    ensures Step(s, '/', next) == s.(backToNormal := 1, atLineStart := false, inEscape := false)
  {
  }

  lemma {:induction false} InComment(s: Scanner, text: string)
    requires s.backToNormal == 0 && s.state == BlockComment
    ensures var k := CommentEnd(text);
      Classes(s, text, EOF) == Repeat(BlockComment, k) + Classes(Behind(s), text[k..], EOF)
    decreases |text|
  {
    hide Step;
    if text != "" {
      hide Classes, Repeat;
      var k := CommentEnd(text);
      var t := Step(s, text[0], At(text, 1));
      CommentStep(s, text[0], At(text, 1));
      FirstClass(s, text);
      RepeatMore(BlockComment, k - 1, Classes(Behind(s), text[k..], EOF));
      if |text| > 1 && text[0] == '*' && text[1] == '/' {
        ClosingSlash(t, At(text[1..], 1));
        FirstClass(t, text[1..]);
        PendingIsNormal(Step(t, text[1], At(text[1..], 1)), text[2..], EOF);
        assert text[1..][1..] == text[2..];
        RepeatMore(BlockComment, 0, Classes(Behind(s), text[2..], EOF));
      } else {
        InComment(t, text[1..]);
        assert text[1..][k - 1..] == text[k..];
      }
    } else {
      assert Classes(s, text, EOF) == [] && Classes(Behind(s), text[0..], EOF) == [];
    }
  }

  lemma {:induction false} LineStep(s: Scanner, c: char, next: int)
    requires s.backToNormal == 0 && (s.state == LineComment || s.state == Directive)
    ensures var t := Step(s, c, next);
      if !s.inEscape && c == '\n' then t == Step(Behind(s), c, next)
      else t == s.(atLineStart := t.atLineStart, inEscape := !s.inEscape && c == '\\')
  {
  }

  lemma {:induction false} InLine(s: Scanner, text: string)
    requires s.backToNormal == 0 && (s.state == LineComment || s.state == Directive)
    ensures var k := LineEnd(text, s.inEscape);
      Classes(s, text, EOF) == Repeat(s.state, k) + Classes(Behind(s), text[k..], EOF)
    decreases |text|
  {
    hide Step;
    if text != "" {
      hide Classes, Repeat;
      var k := LineEnd(text, s.inEscape);
      LineStep(s, text[0], At(text, 1));
      FirstClass(s, text);
      FirstClass(Behind(s), text);
      if !s.inEscape && text[0] == '\n' {
        RepeatMore(s.state, 0, Classes(Behind(s), text, EOF));
      } else {
        InLine(Step(s, text[0], At(text, 1)), text[1..]);
        assert text[1..][k - 1..] == text[k..];
        RepeatMore(s.state, k - 1, Classes(Behind(s), text[k..], EOF));
      }
    }
  }

  /** How much of a token is left behind its first character. */
  function RestLength(kind: Class, rest: string): (k: nat)
    ensures k <= |rest|
  {
    match kind
    case Normal => 0
    case BlockComment => CommentEnd(rest)
    case LineComment => LineEnd(rest, false)
    case Directive => LineEnd(rest, false)
    case String => QuoteEnd(rest, '"', false)
    case CharConstant => QuoteEnd(rest, '\'', false)
  }

  lemma {:induction false} InToken(t: Scanner, rest: string)
    requires t.backToNormal == 0 && !t.inEscape && t.state != Normal
    ensures var k := RestLength(t.state, rest);
      Classes(t, rest, EOF) == Repeat(t.state, k) + Classes(Behind(t), rest[k..], EOF)
  {
    hide Step, Classes, Repeat;
    match t.state {
      case BlockComment => InComment(t, rest);
      case LineComment => InLine(t, rest);
      case Directive => InLine(t, rest);
      case String => InQuotes(t, rest, '"');
      case CharConstant => InQuotes(t, rest, '\'');
    }
  }

  /** The first character of a token that is not normal text, and the length of its rest. */
  lemma {:induction false} OpenedToken(s: Scanner, text: string)
    requires s.state == Normal && s.backToNormal == 0 && text != "" && KindOf(text, s.atLineStart) != Normal
    ensures var t, kind, k := Step(s, text[0], At(text, 1)), KindOf(text, s.atLineStart), TokenLength(text, s.atLineStart, 1);
      && t.state == kind && t.backToNormal == 0 && !t.inEscape
      && k == 1 + RestLength(kind, text[1..])
      && Lex(text, s.atLineStart, s.inEscape, 1)[1..] == Lex(text[k..], false, false, 1)
  {
  }

  /** Behind the first character of a token. */
  lemma {:induction false} TokenTail(t: Scanner, text: string)
    requires t.backToNormal == 0 && !t.inEscape && t.state != Normal && text != ""
    ensures var k := 1 + RestLength(t.state, text[1..]);
      [t.state] + Classes(t, text[1..], EOF) == Repeat(t.state, k) + Classes(Behind(t), text[k..], EOF)
  {
    hide *;
    InToken(t, text[1..]);
    var k := 1 + RestLength(t.state, text[1..]);
    assert text[1..][k - 1..] == text[k..];
    RepeatMore(t.state, k - 1, Classes(Behind(t), text[k..], EOF));
  }

  lemma {:induction false} TokenThenRest(s: Scanner, text: string)
    requires s.state == Normal && s.backToNormal == 0 && text != "" && KindOf(text, s.atLineStart) != Normal
    ensures var t, kind, k := Step(s, text[0], At(text, 1)), KindOf(text, s.atLineStart), TokenLength(text, s.atLineStart, 1);
      Classes(s, text, EOF) == Repeat(kind, k) + Classes(Behind(t), text[k..], EOF)
  {
    OpenedToken(s, text);
    FirstClass(s, text);
    hide *;
    TokenTail(Step(s, text[0], At(text, 1)), text);
  }

  lemma {:induction false} NormalStep(s: Scanner, text: string)
    requires s.state == Normal && s.backToNormal == 0 && text != "" && KindOf(text, s.atLineStart) == Normal
    ensures var t := Step(s, text[0], At(text, 1));
      var ts := Lex(text, s.atLineStart, s.inEscape, 1);
      && t.state == Normal && t.backToNormal == 0
      && ts[0] == Token(Normal, text[..1]) && ts[1..] == Lex(text[1..], t.atLineStart, t.inEscape, 1)
  {
  }

  lemma {:induction false} SpreadFirst(ts: seq<Token>)
    requires ts != []
    ensures Spread(ts) == Repeat(ts[0].kind, |ts[0].text|) + Spread(ts[1..])
  {
  }

  /** The classifier refines the lexer that lets the opening star of a comment close it again:
      on every text, character by character. */
  lemma {:induction false} ClassifierLexes(s: Scanner, text: string)
    requires s.state == Normal && s.backToNormal == 0
    ensures Classes(s, text, EOF) == Spread(Lex(text, s.atLineStart, s.inEscape, 1))
    decreases |text|
  {
    if text != "" {
      var ts := Lex(text, s.atLineStart, s.inEscape, 1);
      var t := Step(s, text[0], At(text, 1));
      SpreadFirst(ts);
      if KindOf(text, s.atLineStart) == Normal {
        NormalStep(s, text);
        hide *;
        FirstClass(s, text);
        ClassifierLexes(t, text[1..]);
        RepeatMore(Normal, 0, Spread(ts[1..]));
      } else {
        OpenedToken(s, text);
        TokenThenRest(s, text);
        var k := TokenLength(text, s.atLineStart, 1);
        assert ts[0] == Token(KindOf(text, s.atLineStart), text[..k]);
        ClassifierLexes(Behind(t), text[k..]);
      }
    }
  }

  // ---- Where that lexer is the one of the language ----

  /** No comment opens with a slash, a star and a slash that more text follows. */
  predicate NoShortComment(ts: seq<Token>) {
    forall i | 0 <= i < |ts| - 1 :: !IsShortComment(ts[i])
  }

  predicate IsShortComment(t: Token) { t.kind == BlockComment && t.text == "/*/" }

  lemma {:induction false} CommentEnds(s: string)
    requires |s| >= 2 && s[0] == '/' && s[1] == '*'
    ensures var a, b := 1 + CommentEnd(s[1..]), 2 + CommentEnd(s[2..]);
      a <= b && (a == b <==> !(s[..a] == "/*/" && a < |s|))
  {
    if |s| > 2 && s[2] == '/' {
      assert s[1..][0] == '*' && s[1..][1] == '/';
      assert s[..3] == "/*/";
      assert |s| > 3 ==> CommentEnd(s[2..]) == 1 + CommentEnd(s[3..]);
      assert |s| > 3 ==> CommentEnd(s[3..]) >= 1;
    } else {
      assert CommentEnd(s[1..]) == 1 + CommentEnd(s[1..][1..]);
      assert s[1..][1..] == s[2..];
    }
  }

  /** The two lexers find the same tokens exactly when no comment opens and seems to close within its
      first three characters, in front of further text. */
  lemma {:induction false} SameTokens(s: string, lineStart: bool, escaped: bool)
    ensures Lex(s, lineStart, escaped, 1) == Lex(s, lineStart, escaped, 2)
      <==> NoShortComment(Lex(s, lineStart, escaped, 1))
    decreases |s|
  {
    if s != "" {
      var kind := KindOf(s, lineStart);
      var k, m := TokenLength(s, lineStart, 1), TokenLength(s, lineStart, 2);
      var a, b := Lex(s, lineStart, escaped, 1), Lex(s, lineStart, escaped, 2);
      assert a[0] == Token(kind, s[..k]) && b[0] == Token(kind, s[..m]);
      if kind == Normal {
        var l, e := (!escaped && s[0] == '\n') || (IsBlank(s[0]) && lineStart), !escaped && s[0] == '\\';
        SameTokens(s[1..], l, e);
        assert a[1..] == Lex(s[1..], l, e, 1) && b[1..] == Lex(s[1..], l, e, 2);
        TailShort(a);
      } else {
        if kind == BlockComment {
          CommentEnds(s);
        }
        assert a[1..] == Lex(s[k..], false, false, 1);
        assert |a| > 1 <==> k < |s|;
        TailShort(a);
        if k == m {
          SameTokens(s[k..], false, false);
          assert b[1..] == Lex(s[k..], false, false, 2);
        } else {
          assert |s[..k]| != |s[..m]|;
          assert a[0] != b[0];
        }
      }
    }
  }

  lemma {:induction false} TailShort(ts: seq<Token>)
    requires ts != []
    ensures NoShortComment(ts) <==>
      NoShortComment(ts[1..]) && !(|ts| > 1 && IsShortComment(ts[0]))
  {
    forall i | 0 <= i < |ts[1..]| ensures ts[1..][i] == ts[i + 1] {
    }
    if NoShortComment(ts[1..]) {
      forall i | 0 < i < |ts| - 1 ensures !IsShortComment(ts[i]) {
        assert !IsShortComment(ts[1..][i - 1]);
      }
    }
  }

  /** In the language's own tokens: no comment that goes on behind these three characters begins with them. */
  predicate NoSlashOpened(ts: seq<Token>) { forall i | 0 <= i < |ts| :: !IsSlashOpened(ts[i]) }

  predicate IsSlashOpened(t: Token) { t.kind == BlockComment && "/*/" < t.text }

  lemma {:induction false} TailSlashOpened(ts: seq<Token>)
    requires ts != []
    ensures NoSlashOpened(ts) <==> NoSlashOpened(ts[1..]) && !IsSlashOpened(ts[0])
  {
    forall i | 0 <= i < |ts[1..]| ensures ts[1..][i] == ts[i + 1] {
    }
    if NoSlashOpened(ts[1..]) {
      forall i | 0 < i < |ts| ensures !IsSlashOpened(ts[i]) {
        assert !IsSlashOpened(ts[1..][i - 1]);
      }
    }
  }

  lemma {:induction false} SlashOpened(s: string)
    requires |s| >= 2 && s[0] == '/' && s[1] == '*'
    ensures var a, b := 1 + CommentEnd(s[1..]), 2 + CommentEnd(s[2..]);
      "/*/" < s[..b] <==> a != b
  {
    CommentEnds(s);
    if |s| > 2 && s[2] == '/' {
      assert s[1..][0] == '*' && s[1..][1] == '/';
      assert s[2..][0] == '/' && s[2..][1..] == s[3..];
      assert CommentEnd(s[2..]) == 1 + CommentEnd(s[3..]);
      var b := 2 + CommentEnd(s[2..]);
      assert s[..b][..3] == s[..3] == "/*/";
    } else {
      assert CommentEnd(s[1..]) == 1 + CommentEnd(s[1..][1..]);
      assert s[1..][1..] == s[2..];
      var b := 2 + CommentEnd(s[2..]);
      assert |s[..b]| > 2 ==> s[..b][2] == s[2];
    }
  }

  /** The same condition on the language's own tokens. */
  lemma {:induction false} SameTokensToo(s: string, lineStart: bool, escaped: bool)
    ensures Lex(s, lineStart, escaped, 1) == Lex(s, lineStart, escaped, 2)
      <==> NoSlashOpened(Lex(s, lineStart, escaped, 2))
    decreases |s|
  {
    if s != "" {
      var kind := KindOf(s, lineStart);
      var k, m := TokenLength(s, lineStart, 1), TokenLength(s, lineStart, 2);
      var a, b := Lex(s, lineStart, escaped, 1), Lex(s, lineStart, escaped, 2);
      assert a[0] == Token(kind, s[..k]) && b[0] == Token(kind, s[..m]);
      hide IsSlashOpened;
      TailSlashOpened(b);
      if kind == Normal {
        var l, e := (!escaped && s[0] == '\n') || (IsBlank(s[0]) && lineStart), !escaped && s[0] == '\\';
        SameTokensToo(s[1..], l, e);
        assert a[1..] == Lex(s[1..], l, e, 1) && b[1..] == Lex(s[1..], l, e, 2);
        OtherKind(b[0]);
      } else {
        FirstOpened(s, lineStart);
        assert a[1..] == Lex(s[k..], false, false, 1) && b[1..] == Lex(s[m..], false, false, 2);
        if k == m {
          SameTokensToo(s[k..], false, false);
        } else {
          assert |s[..k]| != |s[..m]|;
        }
      }
    }
  }

  lemma {:induction false} OtherKind(t: Token)
    ensures t.kind != BlockComment ==> !IsSlashOpened(t)
  {
  }

  lemma {:induction false} FirstOpened(s: string, lineStart: bool)
    requires s != ""
    ensures var k, m := TokenLength(s, lineStart, 1), TokenLength(s, lineStart, 2);
      IsSlashOpened(Token(KindOf(s, lineStart), s[..m])) <==> k != m
  {
    if KindOf(s, lineStart) == BlockComment {
      SlashOpened(s);
    }
  }

  /** On a fresh classifier: the class of every character is the kind of the token it belongs to. */
  lemma {:induction false} ClassesAreTokens(text: string)
    requires NoSlashOpened(Lex(text, true, false, 2))
    ensures Classes(START, text, EOF) == Spread(Lex(text, true, false, 2))
  {
    ClassifierLexes(START, text);
    SameTokensToo(text, true, false);
  }

  lemma {:induction false} ContainedBehind(a: string, b: string, w: string)
    requires Contains(b, w)
    ensures Contains(a + b, w)
  {
    var i :| 0 <= i <= |b| && OccursAt(b, w, i);
    assert (a + b)[|a| + i..|a| + i + |w|] == b[i..i + |w|];
    assert OccursAt(a + b, w, |a| + i);
  }

  lemma {:induction false} ContainedInFront(a: string, b: string, w: string)
    requires w <= a
    ensures Contains(a + b, w)
  {
    assert (a + b)[0..|w|] == a[..|w|];
    assert OccursAt(a + b, w, 0);
  }

  /** A comment that begins so makes the three characters occur in the text. */
  lemma {:induction false} OpenedOccurs(ts: seq<Token>)
    requires !NoSlashOpened(ts)
    ensures Contains(Join(ts), "/*/")
    decreases |ts|
  {
    assert ts != [];
    TailSlashOpened(ts);
    if IsSlashOpened(ts[0]) {
      ContainedInFront(ts[0].text, Join(ts[1..]), "/*/");
    } else {
      OpenedOccurs(ts[1..]);
      ContainedBehind(ts[0].text, Join(ts[1..]), "/*/");
    }
  }

  /** So it is for every text in which a slash, a star and a slash do not occur next to each other. */
  lemma {:induction false} PlainTextsAreTokens(text: string)
    requires !Contains(text, "/*/")
    ensures Classes(START, text, EOF) == Spread(Lex(text, true, false, 2))
  {
    var ts := Lex(text, true, false, 2);
    LexCovers(text, true, false, 2);
    if !NoSlashOpened(ts) {
      OpenedOccurs(ts);
    }
    ClassesAreTokens(text);
  }

  // ---- Bracket levels ----

  /** Opening minus closing brackets among the characters of normal text. */
  function Balance(text: string, classes: seq<Class>, open: char, close: char): int
    requires |text| == |classes|
    decreases |text|
  {
    if text == "" then 0
    else (if classes[0] == Normal then Change(text[0], open, close) else 0) + Balance(text[1..], classes[1..], open, close)
  }

  lemma {:induction false} ClassCount(s: Scanner, text: string, last: int)
    ensures |Classes(s, text, last)| == |text|
    decreases |text|
  {
    if text != "" { ClassCount(Step(s, text[0], if |text| > 1 then text[1] as int else last), text[1..], last); }
  }

  /** Normal text never waits for a token to end; every scanner that starts so stays so. */
  predicate Proper(s: Scanner) { s.backToNormal > 0 ==> s.state != Normal }

  /** The three levels count exactly the brackets in normal text. */
  lemma {:induction false} LevelsCount(s: Scanner, text: string, last: int)
    requires Proper(s)
    ensures |Classes(s, text, last)| == |text|
    ensures var t, cs := Scan(s, text, last), Classes(s, text, last);
      && t.blockLevel == s.blockLevel + Balance(text, cs, '{', '}')
      && t.callLevel == s.callLevel + Balance(text, cs, '(', ')')
      && t.indexLevel == s.indexLevel + Balance(text, cs, '[', ']')
    decreases |text|
  {
    ClassCount(s, text, last);
    if text != "" {
      var next := if |text| > 1 then text[1] as int else last;
      var t := Step(s, text[0], next);
      LevelStep(s, text[0], next);
      LevelsCount(t, text[1..], last);
      assert Classes(s, text, last)[1..] == Classes(t, text[1..], last);
    }
  }

  /** One character changes the levels exactly when it is a bracket that turns out to be normal text. */
  lemma {:induction false} LevelStep(s: Scanner, c: char, next: int)
    requires Proper(s)
    ensures var t := Step(s, c, next);
      && Proper(t)
      && t.blockLevel == s.blockLevel + (if t.state == Normal then Change(c, '{', '}') else 0)
      && t.callLevel == s.callLevel + (if t.state == Normal then Change(c, '(', ')') else 0)
      && t.indexLevel == s.indexLevel + (if t.state == Normal then Change(c, '[', ']') else 0)
  {
  }

  // ---- Where directives begin ----

  /** Text of one line in which no token begins. */
  predicate Tame(text: string) { forall i | 0 <= i < |text| :: text[i] !in "\"'/#\n" }

  predicate OnlyBlanks(text: string) { forall i | 0 <= i < |text| :: text[i] == ' ' || text[i] == '\t' }

  lemma {:induction false} BlanksFirst(text: string)
    requires text != ""
    ensures OnlyBlanks(text) <==> (text[0] == ' ' || text[0] == '\t') && OnlyBlanks(text[1..])
  {
    assert text == [text[0]] + text[1..];
  }

  lemma {:induction false} TameLine(s: Scanner, text: string, last: int)
    requires s.state == Normal && s.backToNormal == 0 && Tame(text)
    ensures var t := Scan(s, text, last);
      t.state == Normal && t.backToNormal == 0 && (t.atLineStart <==> s.atLineStart && OnlyBlanks(text))
    decreases |text|
  {
    if text != "" {
      var c := text[0];
      assert c != '"' && c != '\'' && c != '/' && c != '#' && c != '\n' by { assert c !in "\"'/#\n"; }
      TameLine(Step(s, c, if |text| > 1 then text[1] as int else last), text[1..], last);
      BlanksFirst(text);
    }
  }

  /** The sign begins a directive exactly when nothing but blanks and tabulators stand in front of it on its line. */
  lemma {:induction false} DirectiveBegins(text: string, next: int)
    requires Tame(text)
    ensures Step(Scan(START, text, '#' as int), '#', next).state
      == if OnlyBlanks(text) then Directive else Normal
  {
    TameLine(START, text, '#' as int);
  }

  // ---- The classifier object ----

  class CharacterClassifier {
    var state: Class
    var atLineStart: bool
    var inEscape: bool
    var backToNormal: nat
    var blockLevel: int
    var callLevel: int
    var indexLevel: int

    function View(): Scanner
      reads this
    {
      Scanner(state, atLineStart, inEscape, backToNormal, blockLevel, callLevel, indexLevel)
    }

    constructor ()
      ensures View() == START
    {
      state, atLineStart, inEscape, backToNormal := Normal, true, false, 0;
      blockLevel, callLevel, indexLevel := 0, 0, 0;
    }

    method Classify(curChar: char, nextChar: int) returns (c: Class)
      modifies this
      ensures View() == Step(old(View()), curChar, nextChar) && c == state
    {
      if backToNormal > 0 {
        backToNormal := backToNormal - 1;
        if backToNormal == 0 { state := Normal; }
      }
      if backToNormal == 0 {
        ClassifyInState(curChar, nextChar);
      }
      if curChar != '\t' && curChar != ' ' { atLineStart := false; }
      if !inEscape && curChar == '\n' { atLineStart := true; }
      if inEscape {
        inEscape := false;
      } else {
        inEscape := curChar == '\\';
      }
      return state;
    }

    method ClassifyInState(curChar: char, nextChar: int)
      requires backToNormal == 0
      modifies this`state, this`backToNormal, this`blockLevel, this`callLevel, this`indexLevel
      ensures View() == InState(old(View()), curChar, nextChar)
    {
      match state {
        case Normal =>
          if atLineStart && curChar == '#' { state := Directive; }
          if curChar == '/' && nextChar == '*' as int { state := BlockComment; }
          if curChar == '/' && nextChar == '/' as int { state := LineComment; }
          if curChar == '\'' { state := CharConstant; }
          if curChar == '"' { state := String; }
          if curChar == '{' { blockLevel := blockLevel + 1; }
          if curChar == '(' { callLevel := callLevel + 1; }
          if curChar == '[' { indexLevel := indexLevel + 1; }
          if curChar == '}' { blockLevel := blockLevel - 1; }
          if curChar == ')' { callLevel := callLevel - 1; }
          if curChar == ']' { indexLevel := indexLevel - 1; }
        case Directive =>
          if !inEscape && curChar == '\n' { state := Normal; }
        case LineComment =>
          if !inEscape && curChar == '\n' { state := Normal; }
        case CharConstant =>
          if !inEscape && curChar == '\'' { backToNormal := 1; }
        case String =>
          if !inEscape && curChar == '"' { backToNormal := 1; }
        case BlockComment =>
          if curChar == '*' && nextChar == '/' as int { backToNormal := 2; }
      }
    }
  }
}
