/** A stack reader that recovers the recorded call forest from the messages of a log. */
module LogReader {
  import opened Basics
  import opened StateLogs

  /** Appends a completed tree behind its siblings. */
  function Append(f: Forest, g: Forest): Forest {
    match f
    case Empty => g
    case Tree(i, c, n) => Tree(i, c, Append(n, g))
  }

  /** The forests read so far at each open level, and a nested element closed but not yet claimed by its tag. */
  datatype Reader = Broken | Reading(levels: seq<Forest>, pending: Option<Forest>)

  const START := Reading([Empty], None)

  function Next(r: Reader, m: Message): Reader {
    if r.Broken? || r.levels == [] then Broken
    else
      var top := |r.levels| - 1;
      match m
      case NestedOpen(d) =>
        if d == top && r.pending.None? then Reading(r.levels + [Empty], None) else Broken
      case NestedClose(d) =>
        if d + 1 == top && r.pending.None? && r.levels[top].Tree? then
          Reading(r.levels[..top], Some(r.levels[top]))
        else Broken
      case Tag(d, i) =>
        if d == top then
          var children := if r.pending.Some? then r.pending.value else Empty;
          Reading(r.levels[top := Append(r.levels[top], Tree(i, children, Empty))], None)
        else Broken
  }

  function Read(r: Reader, ms: seq<Message>): Reader
    decreases |ms|
  {
    if ms == [] then r else Read(Next(r, ms[0]), ms[1..])
  }

  /** The forest a complete log describes; a log that stops inside a state or is malformed has none. */
  function Decode(ms: seq<Message>): Option<Forest> {
    var r := Read(START, ms);
    if r.Reading? && |r.levels| == 1 && r.pending.None? then Some(r.levels[0]) else None
  }

  lemma {:induction false} ReadAppend(r: Reader, ms: seq<Message>, ns: seq<Message>)
    ensures Read(r, ms + ns) == Read(Read(r, ms), ns)
    decreases |ms|
  {
    if ms == [] {
      assert ms + ns == ns;
    } else {
      assert (ms + ns)[1..] == ms[1..] + ns;
      ReadAppend(Next(r, ms[0]), ms[1..], ns);
    }
  }

  lemma {:induction false} AppendLaws(f: Forest, g: Forest, h: Forest)
    ensures Append(f, Empty) == f
    ensures Append(Append(f, g), h) == Append(f, Append(g, h))
    ensures f.Tree? || g.Tree? ==> Append(f, g).Tree?
  {
    if f.Tree? { AppendLaws(f.next, g, h); }
  }

  /** The children's part of a tree's messages. */
  function Nested(c: Forest, d: nat): seq<Message> {
    if c.Empty? then [] else [NestedOpen(d)] + Render(c, d + 1) + [NestedClose(d)]
  }

  lemma {:induction false} RenderTree(f: Forest, d: nat)
    requires f.Tree?
    ensures Render(f, d) == Nested(f.children, d) + ([Tag(d, f.info)] + Render(f.next, d))
  {
    assert Nested(f.children, d) + [Tag(d, f.info)] + Render(f.next, d)
        == Nested(f.children, d) + ([Tag(d, f.info)] + Render(f.next, d));
  }

  lemma {:induction false} ReadRender(levels: seq<Forest>, f: Forest)
    requires levels != []
    ensures var top := |levels| - 1;
      Read(Reading(levels, None), Render(f, top)) == Reading(levels[top := Append(levels[top], f)], None)
    decreases f, 0
  {
    var top := |levels| - 1;
    match f
    case Empty =>
      AppendLaws(levels[top], Empty, Empty);
    case Tree(i, c, n) =>
      ReadNested(levels, c);
      var one := Tree(i, c, Empty);
      var levels1 := levels[top := Append(levels[top], one)];
      var tail := [Tag(top, i)] + Render(n, top);
      RenderTree(f, top);
      ReadAppend(Reading(levels, None), Nested(c, top), tail);
      assert tail[1..] == Render(n, top);
      ReadRender(levels1, n);
      AppendLaws(levels[top], one, n);
      assert Append(one, n) == f;
      assert levels1[top := Append(levels1[top], n)] == levels[top := Append(levels[top], f)];
  }

  lemma {:induction false} ReadNested(levels: seq<Forest>, c: Forest)
    requires levels != []
    ensures Read(Reading(levels, None), Nested(c, |levels| - 1))
         == Reading(levels, if c.Empty? then None else Some(c))
    decreases c, 1
  {
    var top := |levels| - 1;
    if c.Tree? {
      var deeper := levels + [Empty];
      var tail := Render(c, top + 1) + [NestedClose(top)];
      assert Nested(c, top) == [NestedOpen(top)] + tail;
      assert Nested(c, top)[1..] == tail;
      ReadRender(deeper, c);
      assert deeper[top + 1 := Append(Empty, c)] == levels + [c];
      ReadAppend(Reading(deeper, None), Render(c, top + 1), [NestedClose(top)]);
      assert (levels + [c])[..top + 1] == levels;
    }
  }

  /** The log is decodable: the reader recovers the forest that was rendered. */
  lemma {:induction false} DecodeRender(f: Forest)
    ensures Decode(Render(f, 0)) == Some(f)
  {
    ReadRender([Empty], f);
  }

  /** Two different recorded forests never give the same log. */
  lemma {:induction false} RenderIsInjective(f: Forest, g: Forest)
    requires Render(f, 0) == Render(g, 0)
    ensures f == g
  {
    DecodeRender(f);
    DecodeRender(g);
  }

  // ---- The reader accepts nothing else ----

  /** The messages up to the start of level `top`. */
  function Below(levels: seq<Forest>, top: nat): seq<Message>
    requires top < |levels|
  {
    if top == 0 then []
    else Below(levels, top - 1) + Render(levels[top - 1], top - 1) + [NestedOpen(top - 1)]
  }

  /** The messages that a reader in this state has seen. */
  function Seen(r: Reader): seq<Message> {
    if r.Broken? || r.levels == [] then []
    else
      var top := |r.levels| - 1;
      Below(r.levels, top) + Render(r.levels[top], top)
      + if r.pending.None? then [] else Nested(r.pending.value, top)
  }

  lemma {:induction false} BelowDepends(a: seq<Forest>, b: seq<Forest>, top: nat)
    requires top < |a| && top < |b| && a[..top] == b[..top]
    ensures Below(a, top) == Below(b, top)
  {
    if top > 0 {
      assert a[..top][top - 1] == b[..top][top - 1];
      assert a[..top - 1] == a[..top][..top - 1] && b[..top - 1] == b[..top][..top - 1];
      BelowDepends(a, b, top - 1);
    }
  }

  lemma {:induction false} RenderAppend(f: Forest, g: Forest, d: nat)
    ensures Render(Append(f, g), d) == Render(f, d) + Render(g, d)
  {
    if f.Tree? {
      RenderAppend(f.next, g, d);
      RenderTree(f, d);
      RenderTree(Append(f, g), d);
      var x, y := Nested(f.children, d), [Tag(d, f.info)];
      assert x + (y + (Render(f.next, d) + Render(g, d))) == x + (y + Render(f.next, d)) + Render(g, d);
    }
  }

  ghost predicate Sound(r: Reader) {
    r.Reading? ==> r.levels != [] && (r.pending.Some? ==> r.pending.value.Tree?)
  }

  lemma {:induction false} SeenOpen(r: Reader, m: Message)
    requires Sound(r) && m.NestedOpen? && Next(r, m).Reading?
    ensures Seen(Next(r, m)) == Seen(r) + [m]
  {
    var top := |r.levels| - 1;
    BelowDepends(r.levels + [Empty], r.levels, top);
    assert Render(Empty, top + 1) == [];
    assert Seen(Next(r, m)) == Below(r.levels + [Empty], top + 1) + [] + [];
  }

  lemma {:induction false} SeenClose(r: Reader, m: Message)
    requires Sound(r) && m.NestedClose? && Next(r, m).Reading?
    ensures Seen(Next(r, m)) == Seen(r) + [m]
  {
    var d := m.depth;
    var under, c := r.levels[..d + 1], r.levels[d + 1];
    BelowDepends(under, r.levels, d);
    var x := Below(r.levels, d) + Render(r.levels[d], d);
    var y := Render(c, d + 1);
    assert Seen(r) == x + [NestedOpen(d)] + y by {
      Neutral(x + [NestedOpen(d)] + y);
    }
    assert Seen(Next(r, m)) == x + ([NestedOpen(d)] + y + [m]);
    Regroup(x, [NestedOpen(d)], y, [m]);
  }

  lemma {:induction false} Neutral(x: seq<Message>)
    ensures x + [] == x
  {
  }

  lemma {:induction false} Regroup(x: seq<Message>, y: seq<Message>, z: seq<Message>, u: seq<Message>)
    ensures x + (y + z + u) == x + y + z + u
    ensures x + (y + (z + u)) == x + y + z + u
  {
    assert x + (y + z + u) == x + (y + z) + u == x + y + z + u;
    assert y + (z + u) == y + z + u;
  }

  lemma {:induction false} SeenTag(r: Reader, m: Message)
    requires Sound(r) && m.Tag? && Next(r, m).Reading?
    ensures Seen(Next(r, m)) == Seen(r) + [m]
  {
    var top := |r.levels| - 1;
    var c := if r.pending.Some? then r.pending.value else Empty;
    var one := Tree(m.info, c, Empty);
    var levels := r.levels[top := Append(r.levels[top], one)];
    BelowDepends(levels, r.levels, top);
    RenderAppend(r.levels[top], one, top);
    RenderTree(one, top);
    assert Render(Empty, top) == [];
    assert Render(one, top) == Nested(c, top) + [m];
    var x, y := Below(r.levels, top), Render(r.levels[top], top);
    Neutral(x + (y + (Nested(c, top) + [m])));
    assert Seen(Next(r, m)) == x + (y + (Nested(c, top) + [m]));
    Neutral(x + y);
    assert Seen(r) == x + y + Nested(c, top);
    Regroup(x, y, Nested(c, top), [m]);
  }

  lemma {:induction false} SeenRead(r: Reader, ms: seq<Message>)
    requires Sound(r) && r.Reading? && Read(r, ms).Reading?
    ensures Sound(Read(r, ms))
    ensures Seen(Read(r, ms)) == Seen(r) + ms
    decreases |ms|
  {
    if ms == [] {
      assert Seen(r) + ms == Seen(r);
    } else {
      var t := Next(r, ms[0]);
      if t.Broken? {
        BrokenStays(ms[1..]);
      } else {
        match ms[0] {
          case NestedOpen(_) => SeenOpen(r, ms[0]);
          case NestedClose(_) => SeenClose(r, ms[0]);
          case Tag(_, _) => SeenTag(r, ms[0]);
        }
        SeenRead(t, ms[1..]);
        assert Seen(r) + [ms[0]] + ms[1..] == Seen(r) + ms;
      }
    }
  }

  lemma {:induction false} BrokenStays(ms: seq<Message>)
    ensures Read(Broken, ms) == Broken
  {
    if ms != [] { BrokenStays(ms[1..]); }
  }

  /** A message sequence is a complete log exactly when it renders the forest that the reader finds in it. */
  lemma {:induction false} DecodeIsExact(ms: seq<Message>, f: Forest)
    ensures Decode(ms) == Some(f) <==> ms == Render(f, 0)
  {
    DecodeRender(f);
    if Decode(ms) == Some(f) {
      SeenRead(START, ms);
      var r := Read(START, ms);
      assert r.levels == [r.levels[0]] == [f];
      assert r == Reading([f], None);
      assert Seen(START) == [] && [] + ms == ms;
      assert Below([f], 0) + Render([f][0], 0) + [] == Render(f, 0);
    }
  }

  /** End to end: from the log of any balanced run the reader recovers exactly the calls
      made above the depth limit, with their attributes, elements and times. */
  lemma {:induction false} LogOfRunIsDecodable(max: int, es: seq<Event>)
    requires Balanced(es, 0)
    ensures Decode(Run(Idle(max, true, []), es).messages) == Some(Prune(Calls(Parse(es).0, 0), max))
  {
    BalancedRunIsRendered(max, [], es);
    var f := Prune(Calls(Parse(es).0, 0), max);
    assert [] + Render(f, 0) == Render(f, 0);
    DecodeRender(f);
  }
}
