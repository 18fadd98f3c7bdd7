/** Numbers for MPI datatypes: a memo table and the walk that writes one information line for a type,
    behind the lines of the types that it is made of. */
module TypeIds {
  import opened Basics

  type Type = int

  /** What MPI tells about a type: how it was made, and from which types. A named type is made of none. */
  datatype Envelope = Named(text: string) | Derived(text: string, kids: seq<Type>)

  function Kids(e: Envelope): seq<Type> { if e.Named? then [] else e.kids }

  type Graph = map<Type, Envelope>

  predicate ClosedGraph(g: Graph) { forall t | t in g :: forall k | k in Kids(g[t]) :: k in g }

  datatype Line = Line(id: nat, text: string, types: seq<nat>)

  /** The memo table, the counter, and the lines written so far. */
  datatype State = State(ids: map<Type, nat>, next: nat, lines: seq<Line>)

  const START := State(map[], 0, [])

  predicate Extends(s: State, t: State) {
    && (forall x | x in s.ids :: x in t.ids && t.ids[x] == s.ids[x])
    && s.next <= t.next && s.lines <= t.lines
  }

  // ---- The walk ----

  /** The types of the graph that have no number yet. */
  function Missing(g: Graph, s: State): set<Type> { g.Keys - s.ids.Keys }

  function Insert(s: State, t: Type): State { s.(ids := s.ids[t := s.next], next := s.next + 1) }

  lemma {:induction false} FewerMissing(g: Graph, s: State, t: Type)
    requires t in g && t !in s.ids
    ensures |Missing(g, Insert(s, t))| < |Missing(g, s)|
  {
    assert Missing(g, Insert(s, t)) == Missing(g, s) - {t};
  }

  lemma {:induction false} NoMoreMissing(g: Graph, s: State, t: State)
    requires Extends(s, t)
    ensures |Missing(g, t)| <= |Missing(g, s)|
  {
    forall x | x in Missing(g, t) ensures x in Missing(g, s) {
    }
    Smaller(Missing(g, t), Missing(g, s));
  }

  lemma {:induction false} Smaller(a: set<Type>, b: set<Type>)
    requires a <= b
    ensures |a| <= |b|
  {
    assert b == a + (b - a);
  }

  /** Looks a type up. A new one is entered first and described then, so the walk ends on every finite
      graph: the number of missing types falls. */
  function LookUp(g: Graph, s: State, t: Type): (r: (State, nat))
    requires ClosedGraph(g) && t in g
    ensures Extends(s, r.0) && t in r.0.ids && r.0.ids[t] == r.1
    decreases |Missing(g, s)|, 0, 0
  {
    if t in s.ids then (s, s.ids[t])
    else
      FewerMissing(g, s, t);
      (WriteInfo(g, Insert(s, t), t, s.next), s.next)
  }

  /** Writes the line of a type; the numbers of its kids are looked up while the line is put together. */
  function WriteInfo(g: Graph, s: State, t: Type, id: nat): (r: State)
    requires ClosedGraph(g) && t in g
    ensures Extends(s, r)
    decreases |Missing(g, s)|, 2, 0
  {
    var (u, types) := KidIds(g, s, t, |Kids(g[t])|);
    u.(lines := u.lines + [Line(id, g[t].text, types)])
  }

  /** The numbers of a type's first n kids. */
  function KidIds(g: Graph, s: State, t: Type, n: nat): (r: (State, seq<nat>))
    requires ClosedGraph(g) && t in g && n <= |Kids(g[t])|
    ensures Extends(s, r.0) && |r.1| == n
    decreases |Missing(g, s)|, 1, n
  {
    if n == 0 then (s, [])
    else
      var (u, types) := KidIds(g, s, t, n - 1);
      var k := Kids(g[t])[n - 1];
      assert k in Kids(g[t]);
      NoMoreMissing(g, s, u);
      var (v, id) := LookUp(g, u, k);
      (v, types + [id])
  }

  lemma {:induction false} LookUpIs(g: Graph, s: State, t: Type)
    requires ClosedGraph(g) && t in g
    ensures LookUp(g, s, t) == if t in s.ids then (s, s.ids[t]) else (WriteInfo(g, Insert(s, t), t, s.next), s.next)
  {
  }

  lemma {:induction false} NewTypeIs(g: Graph, s: State, t: Type)
    requires ClosedGraph(g) && t in g && t !in s.ids
    ensures var (v, types) := KidIds(g, Insert(s, t), t, |Kids(g[t])|);
      && t in v.ids && v.ids[t] == s.next
      && LookUp(g, s, t) == (v.(lines := v.lines + [Line(v.ids[t], g[t].text, types)]), s.next)
  {
    assert Extends(Insert(s, t), KidIds(g, Insert(s, t), t, |Kids(g[t])|).0);
    assert t in Insert(s, t).ids;
  }

  // ---- What the walk keeps ----

  predicate HasLine(s: State, id: nat, upTo: nat)
    requires upTo <= |s.lines|
  {
    exists i | 0 <= i < upTo :: s.lines[i].id == id
  }

  /** Numbers are unique, every line has its own number, every type that is not being described has its
      line, and a line mentions only numbers whose lines stand before it. */
  ghost predicate Inv(s: State, open: set<Type>) {
    && open <= s.ids.Keys
    && (forall t | t in s.ids :: s.ids[t] < s.next)
    && (forall t, u | t in s.ids && u in s.ids && s.ids[t] == s.ids[u] :: t == u)
    && (forall i | 0 <= i < |s.lines| :: s.lines[i].id < s.next)
    && (forall i, j | 0 <= i < j < |s.lines| :: s.lines[i].id != s.lines[j].id)
    && (forall t | t in s.ids :: HasLine(s, s.ids[t], |s.lines|) <==> t !in open)
    && (forall i, id | 0 <= i < |s.lines| && id in s.lines[i].types :: HasLine(s, id, i))
  }

  /** The line of a type tells the numbers of its kids. */
  ghost predicate Describes(g: Graph, s: State, t: Type, l: Line)
    requires t in s.ids && t in g
  {
    && l.id == s.ids[t] && l.text == g[t].text && |l.types| == |Kids(g[t])|
    && forall j | 0 <= j < |l.types| :: Kids(g[t])[j] in s.ids && l.types[j] == s.ids[Kids(g[t])[j]]
  }

  ghost predicate Described(g: Graph, s: State, open: set<Type>) {
    forall t | t in s.ids && t in g && t !in open :: exists i | 0 <= i < |s.lines| :: Describes(g, s, t, s.lines[i])
  }

  /** Types are made of older ones. */
  ghost predicate Ranked(g: Graph, rank: Type -> nat) {
    forall t, k | t in g && k in Kids(g[t]) :: rank(k) < rank(t)
  }

  lemma {:induction false} HasLineLater(s: State, u: State, id: nat, i: nat, j: nat)
    requires s.lines <= u.lines && i <= |s.lines| && i <= j <= |u.lines| && HasLine(s, id, i)
    ensures HasLine(u, id, j)
  {
    var k :| 0 <= k < i && s.lines[k].id == id;
    assert u.lines[k].id == id;
  }

  lemma {:induction false} InsertKeeps(g: Graph, s: State, t: Type, open: set<Type>)
    requires Inv(s, open) && t !in s.ids
    ensures Inv(Insert(s, t), open + {t})
    ensures Described(g, s, open) ==> Described(g, Insert(s, t), open + {t})
  {
    var u := Insert(s, t);
    forall x | x in u.ids ensures HasLine(u, u.ids[x], |u.lines|) <==> x !in open + {t} {
      if x == t {
        assert forall i | 0 <= i < |u.lines| :: u.lines[i].id < s.next;
      } else {
        assert HasLine(s, s.ids[x], |s.lines|) == HasLine(u, u.ids[x], |u.lines|);
      }
    }
    forall i, id | 0 <= i < |u.lines| && id in u.lines[i].types ensures HasLine(u, id, i) {
      HasLineLater(s, u, id, i, i);
    }
    forall x | Described(g, s, open) && x in u.ids && x in g && x !in open + {t}
      ensures exists i | 0 <= i < |u.lines| :: Describes(g, u, x, u.lines[i])
    {
      var i :| 0 <= i < |s.lines| && Describes(g, s, x, s.lines[i]);
      assert Describes(g, u, x, u.lines[i]);
    }
  }

  lemma {:induction false} NoLineYet(s: State, t: Type, open: set<Type>, i: nat)
    requires Inv(s, open) && t in open && i < |s.lines|
    ensures s.lines[i].id != s.ids[t]
  {
    assert !HasLine(s, s.ids[t], |s.lines|);
  }

  /** The line that closes the description of a type. */
  lemma {:induction false} LineKeeps(g: Graph, s: State, t: Type, types: seq<nat>, open: set<Type>)
    requires t in g && t in open && Inv(s, open)
    requires |types| == |Kids(g[t])|
    requires forall j | 0 <= j < |types| :: Kids(g[t])[j] in s.ids && Kids(g[t])[j] !in open && types[j] == s.ids[Kids(g[t])[j]]
    ensures var u := s.(lines := s.lines + [Line(s.ids[t], g[t].text, types)]);
      Inv(u, open - {t}) && (Described(g, s, open) ==> Described(g, u, open - {t}))
  {
    var l := Line(s.ids[t], g[t].text, types);
    var u := s.(lines := s.lines + [l]);
    var n := |s.lines|;
    forall x | x in u.ids ensures HasLine(u, u.ids[x], |u.lines|) <==> x !in open - {t} {
      if x == t {
        assert u.lines[n].id == u.ids[t];
      } else if x !in open {
        HasLineLater(s, u, s.ids[x], n, n + 1);
      } else {
        forall i | 0 <= i < |u.lines| ensures u.lines[i].id != u.ids[x] {
          if i < n {
            NoLineYet(s, x, open, i);
          }
        }
      }
    }
    forall i, j | 0 <= i < j < |u.lines| ensures u.lines[i].id != u.lines[j].id {
      if j == n {
        NoLineYet(s, t, open, i);
      }
    }
    forall i, id | 0 <= i < |u.lines| && id in u.lines[i].types ensures HasLine(u, id, i) {
      if i < n {
        HasLineLater(s, u, id, i, i);
      } else {
        var j :| 0 <= j < |types| && types[j] == id;
        LineOf(s, Kids(g[t])[j], open);
        HasLineLater(s, u, id, n, n);
      }
    }
    forall x | Described(g, s, open) && x in u.ids && x in g && x !in open - {t}
      ensures exists i | 0 <= i < |u.lines| :: Describes(g, u, x, u.lines[i])
    {
      if x == t {
        assert Describes(g, u, t, u.lines[n]);
      } else {
        var i :| 0 <= i < |s.lines| && Describes(g, s, x, s.lines[i]);
        assert Describes(g, u, x, u.lines[i]);
      }
    }
  }

  ghost predicate AllAbove(open: set<Type>, rank: Type -> nat, r: nat) { forall t | t in open :: r < rank(t) }

  lemma {:induction false} LineOf(s: State, t: Type, open: set<Type>)
    requires Inv(s, open) && t in s.ids && t !in open
    ensures HasLine(s, s.ids[t], |s.lines|)
  {
  }

  lemma {:induction false} LineAbove(s: State, i: nat, j: nat)
    requires Inv(s, {}) && i < |s.lines| && j < |s.lines[i].types|
    ensures HasLine(s, s.lines[i].types[j], i)
  {
    assert s.lines[i].types[j] in s.lines[i].types;
  }

  lemma {:induction false} KidsAreOlder(g: Graph, t: Type, rank: Type -> nat, j: nat)
    requires ClosedGraph(g) && Ranked(g, rank) && t in g && j < |Kids(g[t])|
    ensures Kids(g[t])[j] in g && rank(Kids(g[t])[j]) < rank(t)
  {
    var k := Kids(g[t])[j];
    assert k in Kids(g[t]);
  }

  /** A look-up keeps the invariant, and afterwards the type has its line. */
  lemma {:induction false} GetKeeps(g: Graph, s: State, t: Type, open: set<Type>, rank: Type -> nat)
    requires ClosedGraph(g) && Ranked(g, rank) && t in g
    requires Inv(s, open) && AllAbove(open, rank, rank(t))
    ensures var (u, id) := LookUp(g, s, t);
      && Inv(u, open) && (Described(g, s, open) ==> Described(g, u, open)) && HasLine(u, id, |u.lines|)
    decreases rank(t), 1, 0
  {
    hide Inv, Described, Ranked, ClosedGraph, HasLine, Kids, LookUp, KidIds;
    assert t !in open;
    LookUpIs(g, s, t);
    if t in s.ids {
      LineOf(s, t, open);
    } else {
      InsertKeeps(g, s, t, open);
      var u := Insert(s, t);
      var n := |Kids(g[t])|;
      KidsKeep(g, u, t, n, open + {t}, rank);
      var (v, types) := KidIds(g, u, t, n);
      LineKeeps(g, v, t, types, open + {t});
      NewTypeIs(g, s, t);
      assert open + {t} - {t} == open;
      LineOf(LookUp(g, s, t).0, t, open);
    }
  }

  lemma {:induction false} KidsKeep(g: Graph, s: State, t: Type, n: nat, open: set<Type>, rank: Type -> nat)
    requires ClosedGraph(g) && Ranked(g, rank) && t in g && n <= |Kids(g[t])|
    requires Inv(s, open) && t in open
    requires forall x | x in open :: rank(t) <= rank(x)
    ensures var (u, types) := KidIds(g, s, t, n);
      && Inv(u, open) && (Described(g, s, open) ==> Described(g, u, open))
      && forall j | 0 <= j < n :: Kids(g[t])[j] in u.ids && Kids(g[t])[j] !in open && types[j] == u.ids[Kids(g[t])[j]]
    decreases rank(t), 0, n
  {
    hide Inv, Described, Ranked, ClosedGraph, Kids, LookUp;
    if n > 0 {
      KidsKeep(g, s, t, n - 1, open, rank);
      var u := KidIds(g, s, t, n - 1).0;
      var k := Kids(g[t])[n - 1];
      KidsAreOlder(g, t, rank, n - 1);
      GetKeeps(g, u, k, open, rank);
      var (v, types) := KidIds(g, s, t, n);
      assert Extends(u, v) && v == LookUp(g, u, k).0 && types == KidIds(g, s, t, n - 1).1 + [LookUp(g, u, k).1];
      assert k in v.ids && k !in open by { assert k in open ==> rank(t) <= rank(k); }
      forall j | 0 <= j < n
        ensures Kids(g[t])[j] in v.ids && Kids(g[t])[j] !in open && types[j] == v.ids[Kids(g[t])[j]]
      {
        var x := Kids(g[t])[j];
        assert j < n - 1 ==> x in u.ids && x !in open && types[j] == u.ids[x];
        assert x in v.ids && types[j] == v.ids[x];
      }
    }
  }

  // ---- Runs ----

  /** Looking types up one after the other. */
  function GetAll(g: Graph, s: State, ts: seq<Type>): State
    requires ClosedGraph(g) && forall t | t in ts :: t in g
    decreases |ts|
  {
    if ts == [] then s
    else
      var n := |ts| - 1;
      assert ts[n] in ts;
      LookUp(g, GetAll(g, s, ts[..n]), ts[n]).0
  }

  /** Over every run: numbers are unique and stable, every numbered type has exactly one line, which tells
      the numbers of its kids, and every number in a line has its own line further up. */
  lemma {:induction false} RunKeeps(g: Graph, s: State, ts: seq<Type>, rank: Type -> nat)
    requires ClosedGraph(g) && Ranked(g, rank) && forall t | t in ts :: t in g
    requires Inv(s, {}) && Described(g, s, {})
    ensures var u := GetAll(g, s, ts);
      && Inv(u, {}) && Described(g, u, {}) && Extends(s, u)
      && forall t | t in ts :: t in u.ids
  {
    if ts != [] {
      var n := |ts| - 1;
      RunKeeps(g, s, ts[..n], rank);
      var u := GetAll(g, s, ts[..n]);
      assert ts[n] in ts;
      GetKeeps(g, u, ts[n], {}, rank);
      forall t | t in ts ensures t in GetAll(g, s, ts).ids {
        assert t in ts[..n] || t == ts[n];
      }
    }
  }

  // ---- Numbers are consecutive ----

  /** As many numbers are given as lines are written. */
  lemma {:induction false} LookUpCounts(g: Graph, s: State, t: Type)
    requires ClosedGraph(g) && t in g
    ensures var u := LookUp(g, s, t).0; u.next - s.next == |u.lines| - |s.lines|
    decreases |Missing(g, s)|, 0, 0
  {
    hide ClosedGraph, Kids, LookUp, KidIds;
    LookUpIs(g, s, t);
    if t !in s.ids {
      FewerMissing(g, s, t);
      KidsCount(g, Insert(s, t), t, |Kids(g[t])|);
      NewTypeIs(g, s, t);
    }
  }

  lemma {:induction false} KidsCount(g: Graph, s: State, t: Type, n: nat)
    requires ClosedGraph(g) && t in g && n <= |Kids(g[t])|
    ensures var u := KidIds(g, s, t, n).0; u.next - s.next == |u.lines| - |s.lines|
    decreases |Missing(g, s)|, 1, n
  {
    hide LookUp, Kids;
    if n > 0 {
      KidsCount(g, s, t, n - 1);
      var u := KidIds(g, s, t, n - 1).0;
      var k := Kids(g[t])[n - 1];
      assert k in Kids(g[t]);
      NoMoreMissing(g, s, u);
      LookUpCounts(g, u, k);
    }
  }

  /** The numbers of the first n lines. */
  function IdsUpTo(lines: seq<Line>, n: nat): set<nat>
    requires n <= |lines|
  {
    if n == 0 then {} else IdsUpTo(lines, n - 1) + {lines[n - 1].id}
  }

  function Below(n: nat): set<nat> { if n == 0 then {} else Below(n - 1) + {n - 1} }

  lemma {:induction false} BelowHas(n: nat, i: nat)
    ensures i in Below(n) <==> i < n
  {
    if n > 0 { BelowHas(n - 1, i); }
  }

  lemma {:induction false} BelowCounts(n: nat)
    ensures |Below(n)| == n
  {
    if n > 0 {
      BelowCounts(n - 1);
      BelowHas(n - 1, n - 1);
    }
  }

  lemma {:induction false} LineWith(lines: seq<Line>, n: nat, id: nat) returns (i: nat)
    requires n <= |lines| && id in IdsUpTo(lines, n)
    ensures i < n && lines[i].id == id
  {
    if id == lines[n - 1].id {
      i := n - 1;
    } else {
      i := LineWith(lines, n - 1, id);
    }
  }

  lemma {:induction false} IdsCount(lines: seq<Line>, n: nat)
    requires n <= |lines| && forall i, j | 0 <= i < j < |lines| :: lines[i].id != lines[j].id
    ensures |IdsUpTo(lines, n)| == n
  {
    if n > 0 {
      IdsCount(lines, n - 1);
      if lines[n - 1].id in IdsUpTo(lines, n - 1) {
        var i := LineWith(lines, n - 1, lines[n - 1].id);
      }
    }
  }

  lemma {:induction false} IdsBelow(lines: seq<Line>, n: nat, m: nat)
    requires n <= |lines| && forall i | 0 <= i < |lines| :: lines[i].id < m
    ensures IdsUpTo(lines, n) <= Below(m)
  {
    if n > 0 {
      IdsBelow(lines, n - 1, m);
      BelowHas(m, lines[n - 1].id);
    }
  }

  lemma {:induction false} Filled(a: set<nat>, b: set<nat>)
    requires a <= b && |a| == |b|
    ensures a == b
  {
    assert b == a + (b - a);
  }

  lemma {:induction false} LinesApart(s: State)
    requires Inv(s, {})
    ensures forall i, j | 0 <= i < j < |s.lines| :: s.lines[i].id != s.lines[j].id
    ensures forall i | 0 <= i < |s.lines| :: s.lines[i].id < s.next
  {
    hide HasLine;
  }

  /** Every number below the counter stands in front of a line: none is left out. */
  lemma {:induction false} NoNumberLeftOut(s: State, id: nat)
    requires Inv(s, {}) && s.next == |s.lines| && id < s.next
    ensures HasLine(s, id, |s.lines|)
  {
    LinesApart(s);
    hide Inv, IdsUpTo, Below;
    var n := |s.lines|;
    IdsCount(s.lines, n);
    IdsBelow(s.lines, n, s.next);
    BelowCounts(s.next);
    Filled(IdsUpTo(s.lines, n), Below(s.next));
    BelowHas(s.next, id);
    var i := LineWith(s.lines, n, id);
  }

  /** Over every run from an empty table the numbers are those from 0 on, one for each line. */
  lemma {:induction false} NumbersAreConsecutive(g: Graph, ts: seq<Type>, rank: Type -> nat, id: nat)
    requires ClosedGraph(g) && Ranked(g, rank) && forall t | t in ts :: t in g
    ensures var u := GetAll(g, START, ts);
      u.next == |u.lines| && (id < u.next ==> HasLine(u, id, |u.lines|))
  {
    hide ClosedGraph, Ranked, Inv, Described, GetAll, HasLine;
    AllCount(g, START, ts);
    NothingYet(g);
    RunKeeps(g, START, ts, rank);
    var u := GetAll(g, START, ts);
    if id < u.next {
      NoNumberLeftOut(u, id);
    }
  }

  lemma {:induction false} NothingYet(g: Graph)
    ensures Inv(START, {}) && Described(g, START, {})
  {
  }

  lemma {:induction false} AllCount(g: Graph, s: State, ts: seq<Type>)
    requires ClosedGraph(g) && forall t | t in ts :: t in g
    ensures var u := GetAll(g, s, ts); u.next - s.next == |u.lines| - |s.lines|
  {
    hide ClosedGraph, LookUp;
    if ts != [] {
      var n := |ts| - 1;
      AllCount(g, s, ts[..n]);
      assert ts[n] in ts;
      LookUpCounts(g, GetAll(g, s, ts[..n]), ts[n]);
    }
  }

  // ---- Reading the lines ----

  /** The type as the lines tell it: its text and the types behind its numbers. */
  datatype Tree = Tree(text: string, kids: seq<Tree>)

  /** How a type is built. */
  ghost function Shape(g: Graph, t: Type, rank: Type -> nat): Tree
    requires ClosedGraph(g) && Ranked(g, rank) && t in g
    decreases rank(t)
  {
    Tree(g[t].text, seq(|Kids(g[t])|, i requires 0 <= i < |Kids(g[t])| =>
      (assert Kids(g[t])[i] in Kids(g[t]); Shape(g, Kids(g[t])[i], rank))))
  }

  /** The position of a number's line. */
  function Find(lines: seq<Line>, id: nat): (r: Option<nat>)
    ensures r.Some? ==> r.value < |lines|
  {
    if lines == [] then None
    else
      var n := |lines| - 1;
      if lines[n].id == id then Some(n) else Find(lines[..n], id)
  }

  /** Reads a type back, looking for the kids' lines above the type's own. */
  function ReadType(lines: seq<Line>, id: nat): Option<Tree>
    decreases |lines|, 0, 0
  {
    match Find(lines, id)
    case None => None
    case Some(i) =>
      match ReadTypes(lines[..i], lines[i].types, |lines[i].types|)
      case None => None
      case Some(kids) => Some(Tree(lines[i].text, kids))
  }

  function ReadTypes(lines: seq<Line>, ids: seq<nat>, n: nat): Option<seq<Tree>>
    requires n <= |ids|
    decreases |lines|, 1, n
  {
    if n == 0 then Some([])
    else
      match ReadTypes(lines, ids, n - 1)
      case None => None
      case Some(before) =>
        match ReadType(lines, ids[n - 1])
        case None => None
        case Some(t) => Some(before + [t])
  }

  lemma {:induction false} FindUnique(lines: seq<Line>, i: nat)
    requires i < |lines| && forall j, k | 0 <= j < k < |lines| :: lines[j].id != lines[k].id
    ensures Find(lines, lines[i].id) == Some(i)
  {
    var n := |lines| - 1;
    if i < n {
      FindUnique(lines[..n], i);
    }
  }

  /** The line of a numbered type, found in any part of the file that holds it. */
  lemma {:induction false} FoundLine(g: Graph, s: State, t: Type, m: nat) returns (i: nat)
    requires Inv(s, {}) && Described(g, s, {}) && t in s.ids && t in g
    requires m <= |s.lines| && HasLine(s, s.ids[t], m)
    ensures i < m && Describes(g, s, t, s.lines[i]) && Find(s.lines[..m], s.ids[t]) == Some(i)
  {
    i :| 0 <= i < |s.lines| && Describes(g, s, t, s.lines[i]);
    var k :| 0 <= k < m && s.lines[k].id == s.ids[t];
    assert i == k;
    assert s.lines[..m][i] == s.lines[i];
    FindUnique(s.lines[..m], i);
  }

  /** The file tells how every numbered type is built: reading a number back gives the type's shape. */
  lemma {:induction false} ReadBack(g: Graph, s: State, t: Type, m: nat, rank: Type -> nat)
    requires ClosedGraph(g) && Ranked(g, rank) && t in g
    requires Inv(s, {}) && Described(g, s, {}) && t in s.ids
    requires m <= |s.lines| && HasLine(s, s.ids[t], m)
    ensures ReadType(s.lines[..m], s.ids[t]) == Some(Shape(g, t, rank))
    decreases rank(t), 1, 0
  {
    var i := FoundLine(g, s, t, m);
    assert s.lines[..m][..i] == s.lines[..i] && s.lines[..m][i] == s.lines[i];
    ReadKids(g, s, t, i, |Kids(g[t])|, rank);
    assert ShapesOf(g, t, |Kids(g[t])|, rank) == Shape(g, t, rank).kids;
  }

  ghost function ShapesOf(g: Graph, t: Type, n: nat, rank: Type -> nat): seq<Tree>
    requires ClosedGraph(g) && Ranked(g, rank) && t in g && n <= |Kids(g[t])|
  {
    seq(n, i requires 0 <= i < n => (assert Kids(g[t])[i] in Kids(g[t]); Shape(g, Kids(g[t])[i], rank)))
  }

  lemma {:induction false} ReadKids(g: Graph, s: State, t: Type, i: nat, n: nat, rank: Type -> nat)
    requires ClosedGraph(g) && Ranked(g, rank) && t in g
    requires Inv(s, {}) && Described(g, s, {}) && t in s.ids
    requires i < |s.lines| && Describes(g, s, t, s.lines[i]) && n <= |Kids(g[t])|
    ensures ReadTypes(s.lines[..i], s.lines[i].types, n) == Some(ShapesOf(g, t, n, rank))
    decreases rank(t), 0, n
  {
    hide Inv, Described, Ranked, ClosedGraph, Kids, ReadType, Shape;
    if n > 0 {
      ReadKids(g, s, t, i, n - 1, rank);
      var k := Kids(g[t])[n - 1];
      KidsAreOlder(g, t, rank, n - 1);
      LineAbove(s, i, n - 1);
      ReadBack(g, s, k, i, rank);
      assert ShapesOf(g, t, n, rank) == ShapesOf(g, t, n - 1, rank) + [Shape(g, k, rank)];
    }
  }

  /** The whole story from an empty table: the lines of any run determine the types looked up. */
  lemma {:induction false} FileDeterminesTypes(g: Graph, ts: seq<Type>, t: Type, rank: Type -> nat)
    requires ClosedGraph(g) && Ranked(g, rank) && t in ts && forall x | x in ts :: x in g
    ensures var u := GetAll(g, START, ts);
      t in u.ids && ReadType(u.lines, u.ids[t]) == Some(Shape(g, t, rank))
  {
    RunKeeps(g, START, ts, rank);
    var u := GetAll(g, START, ts);
    assert u.lines[..|u.lines|] == u.lines;
    assert HasLine(u, u.ids[t], |u.lines|);
    ReadBack(g, u, t, |u.lines|, rank);
  }

  // ---- Freeing types ----

  /** Freeing a type forgets its number; its line stays, and the number is never given again. */
  lemma {:induction false} RemoveKeeps(s: State, t: Type)
    requires Inv(s, {})
    ensures var u := s.(ids := s.ids - {t});
      Inv(u, {}) && t !in u.ids && u.lines == s.lines && u.next == s.next
  {
    var u := s.(ids := s.ids - {t});
    forall x | x in u.ids ensures HasLine(u, u.ids[x], |u.lines|) {
      assert HasLine(s, s.ids[x], |s.lines|);
    }
    forall i, id | 0 <= i < |u.lines| && id in u.lines[i].types ensures HasLine(u, id, i) {
      HasLineLater(s, u, id, i, i);
    }
  }

  /** Freeing a type leaves the lines of the others telling their kids' present numbers exactly when it is a kid
      of none of them. */
  lemma {:induction false} FreeLeavesDescribed(g: Graph, s: State, t: Type)
    requires ClosedGraph(g) && Inv(s, {}) && Described(g, s, {})
    ensures var u := s.(ids := s.ids - {t});
      Described(g, u, {}) <==> forall x | x in u.ids && x in g :: t !in Kids(g[x])
  {
    var u := s.(ids := s.ids - {t});
    if Described(g, u, {}) {
      forall x | x in u.ids && x in g ensures t !in Kids(g[x]) {
        var i :| 0 <= i < |u.lines| && Describes(g, u, x, u.lines[i]);
      }
    }
    if forall x | x in u.ids && x in g :: t !in Kids(g[x]) {
      forall x | x in u.ids && x in g ensures exists i | 0 <= i < |u.lines| :: Describes(g, u, x, u.lines[i]) {
        var i :| 0 <= i < |s.lines| && Describes(g, s, x, s.lines[i]);
        assert forall j | 0 <= j < |Kids(g[x])| :: Kids(g[x])[j] in Kids(g[x]);
        assert Describes(g, u, x, u.lines[i]);
      }
    }
  }

  // ---- Runs with frees ----

  /** Reading back the number of every type that is not being described gives its shape. */
  ghost predicate Told(g: Graph, s: State, open: set<Type>, rank: Type -> nat)
    requires ClosedGraph(g) && Ranked(g, rank)
  {
    forall t | t in s.ids && t !in open :: t in g && ReadType(s.lines, s.ids[t]) == Some(Shape(g, t, rank))
  }

  /** A further line changes nothing about the other numbers. */
  lemma {:induction false} ReadStays(lines: seq<Line>, l: Line, id: nat)
    requires l.id != id
    ensures ReadType(lines + [l], id) == ReadType(lines, id)
  {
    var more := lines + [l];
    assert more[..|lines|] == lines && Find(more, id) == Find(lines, id);
    match Find(lines, id)
    case None =>
    case Some(i) => assert more[..i] == lines[..i] && more[i] == lines[i];
  }

  lemma {:induction false} ReadLast(lines: seq<Line>, l: Line)
    ensures ReadType(lines + [l], l.id) ==
      match ReadTypes(lines, l.types, |l.types|)
      case None => None
      case Some(kids) => Some(Tree(l.text, kids))
  {
    var more := lines + [l];
    assert more[..|lines|] == lines && Find(more, l.id) == Some(|lines|);
  }

  lemma {:induction false} KidsAreTold(g: Graph, s: State, t: Type, types: seq<nat>, open: set<Type>, n: nat, rank: Type -> nat)
    requires ClosedGraph(g) && Ranked(g, rank) && t in g && n <= |types| == |Kids(g[t])| && Told(g, s, open, rank)
    requires forall j | 0 <= j < |types| :: Kids(g[t])[j] in s.ids && Kids(g[t])[j] !in open && types[j] == s.ids[Kids(g[t])[j]]
    ensures ReadTypes(s.lines, types, n) == Some(ShapesOf(g, t, n, rank))
  {
    hide Ranked, ClosedGraph, ReadType, Shape;
    if n > 0 {
      KidsAreTold(g, s, t, types, open, n - 1, rank);
      var k := Kids(g[t])[n - 1];
      KidsAreOlder(g, t, rank, n - 1);
      assert ShapesOf(g, t, n, rank) == ShapesOf(g, t, n - 1, rank) + [Shape(g, k, rank)];
    }
  }

  lemma {:induction false} LineTells(g: Graph, s: State, t: Type, types: seq<nat>, open: set<Type>, rank: Type -> nat)
    requires ClosedGraph(g) && Ranked(g, rank) && t in g && t in open && Inv(s, open) && Told(g, s, open, rank)
    requires |types| == |Kids(g[t])|
    requires forall j | 0 <= j < |types| :: Kids(g[t])[j] in s.ids && Kids(g[t])[j] !in open && types[j] == s.ids[Kids(g[t])[j]]
    ensures Told(g, s.(lines := s.lines + [Line(s.ids[t], g[t].text, types)]), open - {t}, rank)
  {
    var l := Line(s.ids[t], g[t].text, types);
    hide ReadType, ReadTypes, Shape, Ranked;
    forall x | x in s.ids && x !in open - {t}
      ensures x in g && ReadType(s.lines + [l], s.ids[x]) == Some(Shape(g, x, rank))
    {
      if x == t {
        KidsAreTold(g, s, t, types, open, |types|, rank);
        ReadLast(s.lines, l);
        ShapeIs(g, t, rank);
      } else {
        ReadStays(s.lines, l, s.ids[x]);
      }
    }
  }

  lemma {:induction false} ShapeIs(g: Graph, t: Type, rank: Type -> nat)
    requires ClosedGraph(g) && Ranked(g, rank) && t in g
    ensures Shape(g, t, rank) == Tree(g[t].text, ShapesOf(g, t, |Kids(g[t])|, rank))
  {
    assert ShapesOf(g, t, |Kids(g[t])|, rank) == Shape(g, t, rank).kids;
  }

  lemma {:induction false} GetTells(g: Graph, s: State, t: Type, open: set<Type>, rank: Type -> nat)
    requires ClosedGraph(g) && Ranked(g, rank) && t in g
    requires Inv(s, open) && Told(g, s, open, rank) && AllAbove(open, rank, rank(t))
    ensures Told(g, LookUp(g, s, t).0, open, rank)
    decreases rank(t), 1, 0
  {
    hide Inv, Described, Ranked, ClosedGraph, Kids, LookUp, KidIds, ReadType, Shape;
    assert t !in open;
    LookUpIs(g, s, t);
    if t !in s.ids {
      InsertKeeps(g, s, t, open);
      var u := Insert(s, t);
      var n := |Kids(g[t])|;
      assert Told(g, u, open + {t}, rank);
      KidsKeep(g, u, t, n, open + {t}, rank);
      KidsTell(g, u, t, n, open + {t}, rank);
      var (v, types) := KidIds(g, u, t, n);
      LineTells(g, v, t, types, open + {t}, rank);
      NewTypeIs(g, s, t);
      assert open + {t} - {t} == open;
    }
  }

  lemma {:induction false} KidsTell(g: Graph, s: State, t: Type, n: nat, open: set<Type>, rank: Type -> nat)
    requires ClosedGraph(g) && Ranked(g, rank) && t in g && n <= |Kids(g[t])|
    requires Inv(s, open) && Told(g, s, open, rank) && t in open
    requires forall x | x in open :: rank(t) <= rank(x)
    ensures Told(g, KidIds(g, s, t, n).0, open, rank)
    decreases rank(t), 0, n
  {
    hide Inv, Described, Ranked, ClosedGraph, Kids, LookUp, Told;
    if n > 0 {
      KidsKeep(g, s, t, n - 1, open, rank);
      KidsTell(g, s, t, n - 1, open, rank);
      var u := KidIds(g, s, t, n - 1).0;
      KidsAreOlder(g, t, rank, n - 1);
      GetTells(g, u, Kids(g[t])[n - 1], open, rank);
    }
  }

  /** A look-up or a free, and what types there are at that time. A handle that has been freed may stand for
      another type later. */
  datatype Call = Get(t: Type) | Free(t: Type)

  datatype Moment = Moment(g: Graph, rank: Type -> nat, call: Call)

  ghost predicate Sensible(m: Moment) { ClosedGraph(m.g) && Ranked(m.g, m.rank) && (m.call.Get? ==> m.call.t in m.g) }

  ghost function Perform(s: State, m: Moment): State
    requires Sensible(m)
  {
    match m.call
    case Get(t) => LookUp(m.g, s, t).0
    case Free(t) => s.(ids := s.ids - {t})
  }

  /** The types that have numbers stay what they are while they have them. */
  ghost predicate Stable(s: State, g: Graph, rank: Type -> nat, h: Graph, later: Type -> nat)
    requires ClosedGraph(g) && Ranked(g, rank) && ClosedGraph(h) && Ranked(h, later)
  {
    forall x | x in s.ids && x in g :: x in h && Shape(h, x, later) == Shape(g, x, rank)
  }

  ghost predicate History(s: State, g: Graph, rank: Type -> nat, ms: seq<Moment>)
    requires ClosedGraph(g) && Ranked(g, rank)
    decreases |ms|
  {
    ms == [] ||
    (&& Sensible(ms[0]) && Stable(s, g, rank, ms[0].g, ms[0].rank)
     && History(Perform(s, ms[0]), ms[0].g, ms[0].rank, ms[1..]))
  }

  ghost function Later(s: State, g: Graph, rank: Type -> nat, ms: seq<Moment>): State
    requires ClosedGraph(g) && Ranked(g, rank) && History(s, g, rank, ms)
    decreases |ms|
  {
    if ms == [] then s else Later(Perform(s, ms[0]), ms[0].g, ms[0].rank, ms[1..])
  }

  /** Over every history of look-ups and frees, with handles that are given again: numbers and lines stay unique,
      no number is given twice, the lines that are there stay, every numbered type has its line, and reading its
      number back gives its present shape, also when its parts have been freed. */
  lemma {:induction false} HistoryKeeps(s: State, g: Graph, rank: Type -> nat, ms: seq<Moment>)
    requires ClosedGraph(g) && Ranked(g, rank) && History(s, g, rank, ms)
    requires Inv(s, {}) && Told(g, s, {}, rank)
    ensures var u := Later(s, g, rank, ms);
      && Inv(u, {}) && s.next <= u.next && s.lines <= u.lines
      && (ms == [] ==> Told(g, u, {}, rank))
      && (ms != [] ==> var last := ms[|ms| - 1];
           ClosedGraph(last.g) && Ranked(last.g, last.rank) && Told(last.g, u, {}, last.rank))
    decreases |ms|
  {
    if ms != [] {
      var m := ms[0];
      var u := Perform(s, m);
      MomentKeeps(s, g, rank, m);
      HistoryKeeps(u, m.g, m.rank, ms[1..]);
      if |ms| > 1 {
        assert ms[1..][|ms| - 2] == ms[|ms| - 1];
      }
    }
  }

  lemma {:induction false} MomentKeeps(s: State, g: Graph, rank: Type -> nat, m: Moment)
    requires ClosedGraph(g) && Ranked(g, rank) && Inv(s, {}) && Told(g, s, {}, rank)
    requires Sensible(m) && Stable(s, g, rank, m.g, m.rank)
    ensures var u := Perform(s, m);
      Inv(u, {}) && s.next <= u.next && s.lines <= u.lines && Told(m.g, u, {}, m.rank)
  {
    hide Inv, Ranked, ClosedGraph, ReadType, Shape, LookUp;
    assert Told(m.g, s, {}, m.rank);
    match m.call
    case Get(t) =>
      GetKeeps(m.g, s, t, {}, m.rank);
      GetTells(m.g, s, t, {}, m.rank);
    case Free(t) => RemoveKeeps(s, t);
  }

  // ---- The table as the wrapper keeps it ----

  class TypeTable {
    const graph: Graph
    var typeTable: map<Type, nat>
    var typeIdCounter: nat
    var file: seq<Line>

    function View(): State
      reads this
    {
      State(typeTable, typeIdCounter, file)
    }

    constructor (graph: Graph)
      ensures this.graph == graph && View() == START
    {
      this.graph, typeTable, typeIdCounter, file := graph, map[], 0, [];
    }

    method GetTypeId(t: Type) returns (id: nat)
      requires ClosedGraph(graph) && t in graph
      modifies this
      ensures (View(), id) == LookUp(graph, old(View()), t)
      decreases |Missing(graph, View())|, 0, 0
    {
      hide ClosedGraph, Kids, WriteInfo, Extends, Missing, LookUp;
      LookUpIs(graph, View(), t);
      if t in typeTable {
        return typeTable[t];
      }
      FewerMissing(graph, View(), t);
      id := typeIdCounter;
      typeTable := typeTable[t := id];
      typeIdCounter := typeIdCounter + 1;
      WriteTypeInfo(t, id);
    }

    /** The numbers of the kids are looked up, and their lines written, while this line is put together. */
    method WriteTypeInfo(t: Type, id: nat)
      requires ClosedGraph(graph) && t in graph
      modifies this
      ensures View() == WriteInfo(graph, old(View()), t, id)
      decreases |Missing(graph, View())|, 2, 0
    {
      var types := [];
      var kids := Kids(graph[t]);
      ghost var start := View();
      for i := 0 to |kids|
        invariant (View(), types) == KidIds(graph, start, t, i)
      {
        assert kids[i] in kids;
        NoMoreMissing(graph, start, View());
        var k := GetTypeId(kids[i]);
        types := types + [k];
      }
      file := file + [Line(id, graph[t].text, types)];
    }

    method RemoveType(t: Type)
      modifies this`typeTable
      ensures View() == old(View()).(ids := old(View()).ids - {t})
    {
      typeTable := typeTable - {t};
    }
  }
}
