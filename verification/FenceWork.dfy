/** The one-sided variant: root and workers move through collective fences in lock step; the root puts
    work into the workers' windows, the workers put results into the root's image.
    Worker w of this model (counted from 0) is the process of rank w + 1. */
module FenceWork {
  import opened Basics
  import opened Tiles

  // ---- State ----

  /** What a worker's window holds: a piece, the filler given out when no piece is left, or the stop. */
  datatype Item = Piece(id: nat, rect: Rect) | Filler | Stop

  /** The first word of a window, by which the processes tell them apart. */
  function Word(item: Item): int {
    match item
    case Piece(id, _) => id
    case Filler => -1
    case Stop => 0
  }

  /** The root blocks in a fence or runs the code behind one. */
  datatype RootPc =
    | Fence1 | Handing          // before and while work is handed out
    | Fence2                    // work handed out; nothing is done before the next fence
    | Fence3 | Collecting       // before and while the results are read
    | FenceDone | HandingStop
    | FenceEnd | Finished

  datatype WorkerPc =
    | FenceA | FenceB           // the two fences before the first piece
    | Working                   // reads its window, then computes or leaves
    | FenceC                    // results put
    | FenceD | FenceE           // while the root collects, while the root hands out
    | Exited

  datatype Worker = Worker(pc: WorkerPc, window: Item, put: Option<Rect>, fences: nat)

  datatype State = State(
    root: RootPc, k: nat, done: bool,
    given: seq<Item>,           // the root's own copy of the work
    puts: seq<Item>,            // puts to the workers since the last fence, one each, or none
    workers: seq<Worker>,
    grid: seq<int>,
    fences: nat,                // history: fences the root has passed
    epoch: nat,                 // history: rounds of handing out
    drawn: seq<Rect>,           // history: pieces put into the image
    shown: seq<Rect>)           // history: pieces the root has passed on

  datatype Setting = Setting(pieces: seq<Rect>, count: nat, width: nat, f: Pixels, before: seq<int>)

  /** The image is stored by rows of `width` here, so `FitsImage` and `PaintAll` get the width. */
  ghost predicate ValidSetting(c: Setting) {
    && |c.pieces| == 400 && 1 <= c.count
    && forall r | r in c.pieces :: FitsImage(r, c.width, |c.before|)
  }

  function Start(c: Setting): State {
    State(Fence1, 0, false, [], [], seq(c.count, _ => Worker(FenceA, Stop, None, 0)), c.before, 0, 0, [], [])
  }

  // ---- Handing out ----

  /** One round of the hand-out loop. */
  method HandOut(pieces: seq<Rect>, k0: nat, done0: bool, work: array<Item>) returns (k: nat, done: bool)
    requires |pieces| == 400 && k0 < 400 && !done0
    modifies work
    ensures work[..] == Round(pieces, k0, work.Length)
    ensures k == LastPiece(k0 + work.Length) && done == (k0 + work.Length >= 400)
  {
    k, done := k0, done0;
    for i := 0 to work.Length
      invariant k == LastPiece(k0 + i) && done == (k0 + i >= 400)
      invariant work[..i] == Round(pieces, k0, i)
    {
      if !done {
        work[i] := Piece(k + 1, pieces[k]);
      } else {
        work[i] := Filler;
      }
      if k < 399 {
        k := k + 1;
      } else {
        done := true;
      }
      assert work[..i + 1] == work[..i] + [work[i]];
    }
  }

  function LastPiece(h: nat): nat { if h < 399 then h else 399 }

  /** The items of a round that starts with piece h. */
  function Round(pieces: seq<Rect>, h: nat, count: nat): seq<Item>
    requires |pieces| == 400
  {
    seq(count, i requires 0 <= i => if h + i < 400 then Piece(h + i + 1, pieces[h + i]) else Filler)
  }

  /** Every piece carries its own number, and neither the stop's nor the placeholder's. */
  lemma {:induction false} RoundIsNumbered(pieces: seq<Rect>, h: nat, count: nat, w: nat)
    requires |pieces| == 400 && w < count && h + w < 400
    ensures var item := Round(pieces, h, count)[w];
      Word(item) == h + w + 1 && item.Piece? && item.rect == pieces[Word(item) - 1]
  {
  }

  // ---- Placeholders ----

  lemma {:induction false} Multiple(a: nat, b: nat, n: nat)
    requires n > 0
    ensures a < b <==> a * n < b * n
    ensures a < b ==> a * n + n <= b * n
  {
    if a < b {
      assert b * n == a * n + (b - a) * n;
      assert (b - a) * n >= n by { assert (b - a) * n == (b - a - 1) * n + n; }
    } else {
      assert a * n == b * n + (a - b) * n;
    }
  }

  /** A round that begins before the pieces are used up hands out a placeholder. */
  ghost predicate HasFiller(pieces: seq<Rect>, e: nat, count: nat)
    requires |pieces| == 400
  {
    e * count < 400 && exists w | 0 <= w < count :: Round(pieces, e * count, count)[w].Filler?
  }

  lemma {:induction false} FillerInRound(pieces: seq<Rect>, e: nat, count: nat)
    requires |pieces| == 400 && count > 0 && HasFiller(pieces, e, count)
    ensures 400 % count != 0
  {
    var q := 400 / count;
    assert 400 == q * count + 400 % count;
    Multiple(e, q, count);
  }

  /** A placeholder stands for the piece of columns -1..-1 and rows -1..-1: the program computes one pixel for it
      and puts it in front of the image. Some round has one exactly when the number of workers does not divide
      the number of pieces. */
  lemma {:induction false} PlaceholdersExactly(pieces: seq<Rect>, count: nat, width: nat)
    requires |pieces| == 400 && count > 0
    ensures (exists e: nat :: HasFiller(pieces, e, count)) <==> 400 % count != 0
    ensures Cell(-1, -1, width) < 0
  {
    if 400 % count != 0 {
      var q := 400 / count;
      assert 400 == q * count + 400 % count;
      var w := 400 - q * count;
      assert Round(pieces, q * count, count)[w].Filler?;
      assert HasFiller(pieces, q, count);
    }
    if e: nat :| HasFiller(pieces, e, count) {
      FillerInRound(pieces, e, count);
    }
  }

  function Rects(items: seq<Item>): seq<Rect> {
    if items == [] then []
    else Rects(items[..|items| - 1]) + if Word(items[|items| - 1]) != -1 && items[|items| - 1].Piece? then [items[|items| - 1].rect] else []
  }

  // ---- Steps ----

  datatype Action = Fence | RootLocal | WorkerLocal(w: nat)

  predicate RootAtFence(pc: RootPc) {
    pc.Fence1? || pc.Fence2? || pc.Fence3? || pc.FenceDone? || pc.FenceEnd?
  }

  predicate AtFence(pc: WorkerPc) { !pc.Working? && !pc.Exited? }

  predicate Enabled(s: State, a: Action) {
    match a
    case Fence => RootAtFence(s.root) && forall w | 0 <= w < |s.workers| :: AtFence(s.workers[w].pc)
    case RootLocal => s.root.Handing? || s.root.Collecting? || s.root.HandingStop?
    case WorkerLocal(w) => w < |s.workers| && s.workers[w].pc.Working?
  }

  function RootPast(pc: RootPc): RootPc {
    match pc
    case Fence1 => Handing
    case Fence2 => Fence3
    case Fence3 => Collecting
    case FenceDone => HandingStop
    case FenceEnd => Finished
    case _ => pc
  }

  function WorkerPast(pc: WorkerPc): WorkerPc {
    match pc
    case FenceA => FenceB
    case FenceB => Working
    case FenceC => FenceD
    case FenceD => FenceE
    case FenceE => Working
    case _ => pc
  }

  /** The pieces put since the last fence, by rank. The order only matters to MPI when puts overlap, which
      they do not in an image of 20 pixels a side or more (`PutsApart`). */
  function Landed(ws: seq<Worker>): seq<Rect> {
    if ws == [] then []
    else Landed(ws[..|ws| - 1]) + if ws[|ws| - 1].put.Some? then [ws[|ws| - 1].put.value] else []
  }

  /** What a fence stores in the image; pieces that do not fit never arrive, as is proved below. */
  ghost function Store(c: Setting, grid: seq<int>, rs: seq<Rect>): seq<int> {
    if forall r | r in rs :: FitsImage(r, c.width, |grid|) then PaintAll(grid, rs, c.width, c.f) else grid
  }

  ghost function Do(c: Setting, s: State, a: Action): State
    requires |c.pieces| == 400 && Enabled(s, a)
  {
    match a
    case Fence =>
      s.(root := RootPast(s.root),
         workers := seq(|s.workers|, w requires 0 <= w < |s.workers| =>
           var me := s.workers[w];
           Worker(WorkerPast(me.pc), if w < |s.puts| then s.puts[w] else me.window, None, me.fences + 1)),
         puts := [],
         grid := Store(c, s.grid, Landed(s.workers)),
         drawn := s.drawn + Landed(s.workers),
         fences := s.fences + 1)
    case RootLocal =>
      if s.root.Handing? then
        var items := Round(c.pieces, s.k, |s.workers|);
        s.(root := Fence2, given := items, puts := items, epoch := s.epoch + 1,
           k := LastPiece(s.k + |s.workers|), done := s.k + |s.workers| >= 400)
      else if s.root.Collecting? then
        s.(root := if s.done then FenceDone else Fence1, shown := s.shown + Rects(s.given))
      else
        var stops := seq(|s.workers|, _ => Stop);
        s.(root := FenceEnd, given := stops, puts := stops)
    case WorkerLocal(w) =>
      var me := s.workers[w];
      s.(workers := s.workers[w :=
           if Word(me.window) == 0 then me.(pc := Exited)
           else me.(pc := FenceC, put := if me.window.Piece? then Some(me.window.rect) else None)])
  }

  // ---- The invariant ----

  /** Pieces handed out after a number of rounds. */
  function Handed(c: Setting, epoch: nat): nat {
    if epoch * c.count < 400 then epoch * c.count else 400
  }

  ghost predicate AllAt(s: State, pc: WorkerPc) {
    forall w | 0 <= w < |s.workers| :: s.workers[w].pc == pc && s.workers[w].put.None?
  }

  /** Between the second and the third fence: each worker has its item and has put its result or not yet. */
  ghost predicate AtWork(s: State) {
    && |s.given| == |s.workers|
    && forall w | 0 <= w < |s.workers| ::
         var me := s.workers[w];
         && me.window == s.given[w] && Word(me.window) != 0
         && (me.pc.Working? ==> me.put.None?)
         && (me.pc.Working? || me.pc.FenceC?)
         && (me.pc.FenceC? ==> me.put == if me.window.Piece? then Some(me.window.rect) else None)
  }

  ghost predicate PhaseInv(c: Setting, s: State) {
    var e := s.epoch;
    match s.root
    case Fence1 =>
      && s.fences == 3 * e && Handed(c, e) < 400 && s.puts == []
      && AllAt(s, if e == 0 then FenceA else FenceD)
    case Handing =>
      && s.fences == 3 * e + 1 && Handed(c, e) < 400 && s.puts == []
      && AllAt(s, if e == 0 then FenceB else FenceE)
    case Fence2 =>
      && e > 0 && s.fences == 3 * (e - 1) + 1 && s.puts == s.given
      && AllAt(s, if e == 1 then FenceB else FenceE)
    case Fence3 => e > 0 && s.fences == 3 * (e - 1) + 2 && s.puts == [] && AtWork(s)
    case Collecting => e > 0 && s.fences == 3 * e && s.puts == [] && AllAt(s, FenceD)
    case FenceDone => e > 0 && s.fences == 3 * e && s.puts == [] && AllAt(s, FenceD) && s.done
    case HandingStop => e > 0 && s.fences == 3 * e + 1 && s.puts == [] && AllAt(s, FenceE) && s.done
    case FenceEnd =>
      && e > 0 && s.fences == 3 * e + 1 && AllAt(s, FenceE) && s.done
      && s.puts == seq(c.count, _ => Stop)
    case Finished =>
      && e > 0 && s.fences == 3 * e + 2 && s.done && s.puts == []
      && forall w | 0 <= w < |s.workers| ::
           && s.workers[w].put.None?
           && ((s.workers[w].pc.Working? && s.workers[w].window.Stop?) || s.workers[w].pc.Exited?)
  }

  /** How many rounds' pieces are in the image, and passed on. */
  function RoundsDrawn(s: State): nat {
    if (s.root.Fence2? || s.root.Fence3?) && s.epoch > 0 then s.epoch - 1 else s.epoch
  }

  function RoundsShown(s: State): nat {
    if (s.root.Fence2? || s.root.Fence3? || s.root.Collecting?) && s.epoch > 0 then s.epoch - 1 else s.epoch
  }

  ghost predicate Inv(c: Setting, s: State)
    requires ValidSetting(c)
  {
    && |s.workers| == c.count
    && s.k == LastPiece(Handed(c, s.epoch)) && s.done == (Handed(c, s.epoch) == 400)
    && (s.epoch > 0 ==> Handed(c, s.epoch - 1) < 400)
    && (s.root.Fence2? || s.root.Fence3? || s.root.Collecting? ==>
          s.epoch > 0 && s.given == Round(c.pieces, Handed(c, s.epoch - 1), c.count))
    && PhaseInv(c, s)
    && (forall w | 0 <= w < c.count :: s.workers[w].fences == s.fences)
    && s.drawn == c.pieces[..Handed(c, RoundsDrawn(s))]
    && s.shown == c.pieces[..Handed(c, RoundsShown(s))]
    && s.grid == PaintAll(c.before, s.drawn, c.width, c.f)
  }

  lemma {:induction false} StartInv(c: Setting)
    requires ValidSetting(c)
    ensures Inv(c, Start(c))
  {
    assert 0 * c.count == 0;
  }

  lemma {:induction false} RoundRects(pieces: seq<Rect>, h: nat, count: nat)
    requires |pieces| == 400 && h <= 400
    ensures pieces[..h] + Rects(Round(pieces, h, count)) == pieces[..if h + count < 400 then h + count else 400]
  {
    if count > 0 {
      RoundRects(pieces, h, count - 1);
      var items := Round(pieces, h, count);
      assert items[..count - 1] == Round(pieces, h, count - 1);
      if h + count <= 400 {
        assert pieces[..h + count] == pieces[..h + count - 1] + [pieces[h + count - 1]];
      }
    } else {
      assert Rects([]) == [];
    }
  }

  lemma {:induction false} NextHanded(c: Setting, e: nat)
    requires Handed(c, e) < 400
    ensures Handed(c, e) == e * c.count
    ensures Handed(c, e + 1) == if Handed(c, e) + c.count < 400 then Handed(c, e) + c.count else 400
  {
    assert (e + 1) * c.count == e * c.count + c.count;
  }

  /** A fence that finds every worker's put in place stores the whole round. */
  lemma {:induction false} LandedRects(ws: seq<Worker>, items: seq<Item>)
    requires |ws| == |items|
    requires forall w | 0 <= w < |ws| ::
      ws[w].put == if items[w].Piece? then Some(items[w].rect) else None
    ensures Landed(ws) == Rects(items)
  {
    if ws != [] {
      LandedRects(ws[..|ws| - 1], items[..|items| - 1]);
    }
  }

  lemma {:induction false} NothingLanded(ws: seq<Worker>)
    requires forall w | 0 <= w < |ws| :: ws[w].put.None?
    ensures Landed(ws) == []
  {
    if ws != [] { NothingLanded(ws[..|ws| - 1]); }
  }

  lemma {:induction false} PaintMore(grid: seq<int>, rs: seq<Rect>, more: seq<Rect>, width: nat, f: Pixels)
    requires forall r | r in rs + more :: FitsImage(r, width, |grid|)
    ensures PaintAll(PaintAll(grid, rs, width, f), more, width, f) == PaintAll(grid, rs + more, width, f)
  {
    if more == [] {
      assert rs + more == rs;
    } else {
      var n := |more| - 1;
      assert (rs + more)[..|rs + more| - 1] == rs + more[..n];
      PaintMore(grid, rs, more[..n], width, f);
    }
  }

  /** The third fence of a round puts exactly that round's pieces into the image. */
  lemma {:induction false} ThirdFenceDraws(c: Setting, s: State)
    requires ValidSetting(c) && Inv(c, s) && Enabled(s, Fence) && s.root.Fence3?
    ensures var t := Do(c, s, Fence);
      && t.drawn == c.pieces[..Handed(c, s.epoch)]
      && t.grid == PaintAll(c.before, t.drawn, c.width, c.f)
  {
    RoundHasLanded(c, s);
    hide Handed, Landed, Round, Rects;
    PaintMore(c.before, s.drawn, Landed(s.workers), c.width, c.f);
  }

  lemma {:induction false} AllHavePut(c: Setting, s: State)
    requires ValidSetting(c) && Inv(c, s) && Enabled(s, Fence) && s.root.Fence3?
    ensures s.epoch > 0 && |s.workers| == |s.given| && Handed(c, s.epoch - 1) < 400
    ensures s.given == Round(c.pieces, Handed(c, s.epoch - 1), c.count)
    ensures s.drawn == c.pieces[..Handed(c, s.epoch - 1)]
    ensures forall w | 0 <= w < |s.workers| :: s.workers[w].put == if s.given[w].Piece? then Some(s.given[w].rect) else None
  {
    hide PaintAll, FitsImage, Handed, Round;
    assert forall w | 0 <= w < |s.workers| :: AtFence(s.workers[w].pc);
  }

  lemma {:induction false} RoundHasLanded(c: Setting, s: State)
    requires ValidSetting(c) && Inv(c, s) && Enabled(s, Fence) && s.root.Fence3?
    ensures s.drawn + Landed(s.workers) == c.pieces[..Handed(c, s.epoch)]
  {
    AllHavePut(c, s);
    hide Inv, Enabled, PaintAll, FitsImage, Handed, Round, Rects, Landed;
    LandedRects(s.workers, s.given);
    RoundRects(c.pieces, Handed(c, s.epoch - 1), c.count);
    NextHanded(c, s.epoch - 1);
  }

  /** Every other fence leaves the image as it is. */
  lemma {:induction false} OtherFenceDrawsNothing(c: Setting, s: State)
    requires ValidSetting(c) && Inv(c, s) && Enabled(s, Fence) && !s.root.Fence3?
    ensures var t := Do(c, s, Fence); t.drawn == s.drawn && t.grid == s.grid
  {
    hide Handed;
    NothingLanded(s.workers);
    assert s.drawn + [] == s.drawn;
  }

  lemma {:induction false} ThirdFenceKeeps(c: Setting, s: State)
    requires ValidSetting(c) && Inv(c, s) && Enabled(s, Fence) && s.root.Fence3?
    ensures Inv(c, Do(c, s, Fence))
  {
    ThirdFenceDraws(c, s);
    hide Handed, PaintAll, FitsImage, Store, Landed, Round;
  }

  lemma {:induction false} OtherFenceKeeps(c: Setting, s: State)
    requires ValidSetting(c) && Inv(c, s) && Enabled(s, Fence) && !s.root.Fence3?
    ensures Inv(c, Do(c, s, Fence))
  {
    OtherFenceDrawsNothing(c, s);
    hide Handed, PaintAll, FitsImage, Store, Landed, Round;
  }

  lemma {:induction false} HandingKeeps(c: Setting, s: State)
    requires ValidSetting(c) && Inv(c, s) && s.root.Handing?
    ensures Inv(c, Do(c, s, RootLocal))
  {
    NextHanded(c, s.epoch);
    assert s.k == Handed(c, s.epoch);
    hide Handed, PaintAll, FitsImage, Store, Landed, Round, Rects;
  }

  lemma {:induction false} CollectingKeeps(c: Setting, s: State)
    requires ValidSetting(c) && Inv(c, s) && s.root.Collecting?
    ensures Inv(c, Do(c, s, RootLocal))
  {
    hide Handed, PaintAll, FitsImage, Store, Landed, Round, Rects, AtWork;
    var h := Handed(c, s.epoch - 1);
    assert h < 400;
    RoundRects(c.pieces, h, c.count);
    NextHanded(c, s.epoch - 1);
    assert s.shown + Rects(s.given) == c.pieces[..Handed(c, s.epoch)];
  }

  lemma {:induction false} HandingStopKeeps(c: Setting, s: State)
    requires ValidSetting(c) && Inv(c, s) && s.root.HandingStop?
    ensures Inv(c, Do(c, s, RootLocal))
  {
    hide Handed, PaintAll, FitsImage, Store, Landed, Round, Rects;
  }

  lemma {:induction false} WorkerLocalKeeps(c: Setting, s: State, w: nat)
    requires ValidSetting(c) && Inv(c, s) && Enabled(s, WorkerLocal(w))
    ensures Inv(c, Do(c, s, WorkerLocal(w)))
  {
    hide Handed, PaintAll, FitsImage, Store, Landed, Round, Rects;
  }

  lemma {:induction false} StepKeeps(c: Setting, s: State, a: Action)
    requires ValidSetting(c) && Inv(c, s) && Enabled(s, a)
    ensures Inv(c, Do(c, s, a))
  {
    match a
    case Fence =>
      if s.root.Fence3? {
        ThirdFenceKeeps(c, s);
      } else {
        OtherFenceKeeps(c, s);
      }
    case RootLocal =>
      if s.root.Handing? {
        HandingKeeps(c, s);
      } else if s.root.Collecting? {
        CollectingKeeps(c, s);
      } else {
        HandingStopKeeps(c, s);
      }
    case WorkerLocal(w) => WorkerLocalKeeps(c, s, w);
  }

  // ---- Who touches what, and when ----

  lemma {:induction false} AccessesByPhase(c: Setting, s: State, w: nat)
    requires ValidSetting(c) && Inv(c, s) && w < c.count
    ensures s.root.Collecting? ==> !s.workers[w].pc.Working? && s.workers[w].put.None?
    ensures s.workers[w].pc.Working? ==> s.puts == [] && !s.root.Handing? && !s.root.HandingStop?
    ensures s.workers[w].put.Some? ==> s.root.Fence3? && s.fences % 3 == 2
    ensures s.workers[w].pc.Working? && !s.workers[w].window.Stop? ==> s.root.Fence3?
    ensures s.workers[w].fences == s.fences
  {
    hide PaintAll, FitsImage, Handed;
  }

  // ---- Every run ends ----

  function AtWorkCount(s: State, n: nat): nat
    requires n <= |s.workers|
  {
    if n == 0 then 0 else AtWorkCount(s, n - 1) + if s.workers[n - 1].pc.Working? then 1 else 0
  }

  lemma {:induction false} AtWorkBounds(s: State, n: nat)
    requires n <= |s.workers|
    ensures AtWorkCount(s, n) <= n
    ensures (forall w | 0 <= w < n :: !s.workers[w].pc.Working?) ==> AtWorkCount(s, n) == 0
  {
    if n > 0 { AtWorkBounds(s, n - 1); }
  }

  lemma {:induction false} OneLessAtWork(s: State, t: State, w: nat, n: nat)
    requires |s.workers| == |t.workers| && n <= |s.workers| && w < |s.workers|
    requires s.workers[w].pc.Working? && !t.workers[w].pc.Working?
    requires forall v | 0 <= v < |s.workers| && v != w :: t.workers[v] == s.workers[v]
    ensures AtWorkCount(t, n) == AtWorkCount(s, n) - if w < n then 1 else 0
  {
    if n > 0 { OneLessAtWork(s, t, w, n - 1); }
  }

  function RootRank(c: Setting, pc: RootPc): nat {
    var p := c.count;
    match pc
    case Fence1 => p + 3
    case Handing => p + 2
    case Fence2 => 2 * p + 6
    case Fence3 => p + 5
    case Collecting => p + 4
    case FenceDone => p + 3
    case HandingStop => p + 2
    case FenceEnd => p + 1
    case Finished => 0
  }

  ghost function Measure(c: Setting, s: State): int
    requires |s.workers| == c.count
  {
    (c.count + 5) * (400 - Handed(c, s.epoch)) + RootRank(c, s.root) + AtWorkCount(s, c.count)
  }

  lemma {:induction false} FewerLeft(p: nat, a: nat, b: nat)
    requires b < a
    ensures (p + 5) * b + (p + 5) <= (p + 5) * a
  {
    assert (p + 5) * (a - b) >= p + 5 by { MulLe(p + 5, 1, a - b); }
    assert (p + 5) * (a - b) == (p + 5) * a - (p + 5) * b;
  }

  lemma {:induction false} StepDecreases(c: Setting, s: State, a: Action)
    requires ValidSetting(c) && Inv(c, s) && Enabled(s, a)
    ensures |Do(c, s, a).workers| == c.count && Measure(c, Do(c, s, a)) < Measure(c, s)
  {
    hide PaintAll, FitsImage, Handed;
    match a
    case Fence => FenceDecreases(c, s);
    case RootLocal => RootDecreases(c, s);
    case WorkerLocal(w) => OneLessAtWork(s, Do(c, s, a), w, c.count);
  }

  lemma {:induction false} RootDecreases(c: Setting, s: State)
    requires ValidSetting(c) && Inv(c, s) && Enabled(s, RootLocal)
    ensures |Do(c, s, RootLocal).workers| == c.count && Measure(c, Do(c, s, RootLocal)) < Measure(c, s)
  {
    hide PaintAll, FitsImage, Handed;
    var t := Do(c, s, RootLocal);
    SameAtWork(s, t, c.count);
    if s.root.Handing? {
      NextHanded(c, s.epoch);
      FewerLeft(c.count, 400 - Handed(c, s.epoch), 400 - Handed(c, s.epoch + 1));
    }
  }

  lemma {:induction false} FenceDecreases(c: Setting, s: State)
    requires ValidSetting(c) && Inv(c, s) && Enabled(s, Fence)
    ensures var t := Do(c, s, Fence);
      && |t.workers| == c.count && t.epoch == s.epoch
      && RootRank(c, t.root) + AtWorkCount(t, c.count) < RootRank(c, s.root) + AtWorkCount(s, c.count)
  {
    hide PaintAll, FitsImage, Handed;
    var t := Do(c, s, Fence);
    AtWorkBounds(t, c.count);
    if !s.root.Fence2? && !s.root.FenceEnd? {
      assert forall w | 0 <= w < c.count :: !t.workers[w].pc.Working?;
    }
  }

  lemma {:induction false} SameAtWork(s: State, t: State, n: nat)
    requires s.workers == t.workers && n <= |s.workers|
    ensures AtWorkCount(s, n) == AtWorkCount(t, n)
  {
    if n > 0 { SameAtWork(s, t, n - 1); }
  }

  ghost predicate IsRun(c: Setting, s: State, run: seq<Action>)
    requires |c.pieces| == 400
    decreases |run|
  {
    run == [] || (Enabled(s, run[0]) && IsRun(c, Do(c, s, run[0]), run[1..]))
  }

  ghost function After(c: Setting, s: State, run: seq<Action>): State
    requires |c.pieces| == 400 && IsRun(c, s, run)
    decreases |run|
  {
    if run == [] then s else After(c, Do(c, s, run[0]), run[1..])
  }

  lemma {:induction false} RunKeeps(c: Setting, s: State, run: seq<Action>)
    requires ValidSetting(c) && Inv(c, s) && IsRun(c, s, run)
    ensures Inv(c, After(c, s, run))
    ensures Measure(c, After(c, s, run)) <= Measure(c, s) - |run|
    decreases |run|
  {
    if run != [] {
      StepKeeps(c, s, run[0]);
      StepDecreases(c, s, run[0]);
      RunKeeps(c, Do(c, s, run[0]), run[1..]);
    }
  }

  /** Termination of every interleaving. */
  lemma {:induction false} RunsEnd(c: Setting, run: seq<Action>)
    requires ValidSetting(c) && IsRun(c, Start(c), run)
    ensures |run| <= (c.count + 5) * 400 + c.count + 3
  {
    StartInv(c);
    RunKeeps(c, Start(c), run);
    var s, t := Start(c), After(c, Start(c), run);
    AtWorkBounds(s, c.count);
    assert Handed(c, 0) == 0;
    MeasureIsNatural(c, t);
  }

  /** At every moment of every run: the root reads its image only while no worker puts into it or has a
      put under way, and workers read their windows only while the root neither puts into them nor
      has a put under way. Puts into the image happen only between the second and third fence. */
  lemma {:induction false} AccessesAlternate(c: Setting, run: seq<Action>, w: nat)
    requires ValidSetting(c) && IsRun(c, Start(c), run) && w < c.count
    ensures var s := After(c, Start(c), run);
      && |s.workers| == c.count
      && (s.root.Collecting? ==> !s.workers[w].pc.Working? && s.workers[w].put.None?)
      && (s.workers[w].pc.Working? ==> s.puts == [] && !s.root.Handing? && !s.root.HandingStop?)
      && (s.workers[w].put.Some? ==> s.root.Fence3? && s.fences % 3 == 2)
      && (s.workers[w].pc.Working? && !s.workers[w].window.Stop? ==> s.root.Fence3?)
      && s.workers[w].fences == s.fences
  {
    hide IsRun, After, PhaseInv, AtWork;
    StartInv(c);
    RunKeeps(c, Start(c), run);
    AccessesByPhase(c, After(c, Start(c), run), w);
  }

  /** When the number of workers divides the number of pieces no worker ever works on a placeholder. */
  lemma {:induction false} NoPlaceholders(c: Setting, run: seq<Action>, w: nat)
    requires ValidSetting(c) && 400 % c.count == 0 && IsRun(c, Start(c), run) && w < c.count
    ensures var s := After(c, Start(c), run);
      |s.workers| == c.count && (s.workers[w].pc.Working? ==> !s.workers[w].window.Filler?)
  {
    hide IsRun, After, PaintAll;
    StartInv(c);
    RunKeeps(c, Start(c), run);
    var s := After(c, Start(c), run);
    AccessesByPhase(c, s, w);
    if s.workers[w].pc.Working? && s.workers[w].window.Filler? {
      assert s.given[w].Filler?;
      NextHanded(c, s.epoch - 1);
      assert HasFiller(c.pieces, s.epoch - 1, c.count);
      FillerInRound(c.pieces, s.epoch - 1, c.count);
    }
  }

  // ---- Which puts are under way together ----

  lemma {:induction false} PutIsOwnPiece(c: Setting, s: State, w: nat)
    requires ValidSetting(c) && Inv(c, s) && w < c.count && s.workers[w].put.Some?
    ensures s.epoch > 0 && Handed(c, s.epoch - 1) + w < 400
    ensures s.workers[w].put == Some(c.pieces[Handed(c, s.epoch - 1) + w])
  {
    hide PaintAll, FitsImage, Handed;
    AccessesByPhase(c, s, w);
    assert s.given[w] == Round(c.pieces, Handed(c, s.epoch - 1), c.count)[w];
  }

  /** Two workers whose puts are under way at the same time. */
  predicate PutTogether(s: State, w: nat, v: nat) {
    w < v < |s.workers| && s.workers[w].put.Some? && s.workers[v].put.Some?
  }

  /** In an image of 20 pixels a side or more puts that are under way at the same time never overlap, whatever
      the shuffle and the number of workers. */
  lemma {:induction false} PutsApart(width: nat, height: nat, draws: seq<(nat, nat)>, count: nat, f: Pixels,
                                     before: seq<int>, run: seq<Action>, w: nat, v: nat)
    requires width >= 20 && height >= 20 && forall d | d in draws :: d.0 < 400 && d.1 < 400
    requires var c := Setting(Shuffled(Pieces(width, height), draws), count, width, f, before);
      ValidSetting(c) && IsRun(c, Start(c), run) && PutTogether(After(c, Start(c), run), w, v)
    ensures var c := Setting(Shuffled(Pieces(width, height), draws), count, width, f, before);
      var s := After(c, Start(c), run);
      !Overlap(s.workers[w].put.value, s.workers[v].put.value)
  {
    hide IsRun, After, Pieces, Overlap, PhaseInv, Handed, PaintAll;
    var c := Setting(Shuffled(Pieces(width, height), draws), count, width, f, before);
    StartInv(c);
    RunKeeps(c, Start(c), run);
    var s := After(c, Start(c), run);
    PutIsOwnPiece(c, s, w);
    PutIsOwnPiece(c, s, v);
    PiecesDisjoint(width, height);
    ShuffledApart(Pieces(width, height), draws);
    var h := Handed(c, s.epoch - 1);
    assert !Overlap(c.pieces[h + w], c.pieces[h + v]);
  }

  /** In smaller images they may: with 400 workers all pieces are put in one round. */
  lemma {:induction false} SmallImagesOverlap(width: nat, height: nat, draws: seq<(nat, nat)>, f: Pixels, before: seq<int>)
    returns (run: seq<Action>, w: nat, v: nat)
    requires width > 0 && height > 0 && (width < 20 || height < 20) && forall d | d in draws :: d.0 < 400 && d.1 < 400
    requires ValidSetting(Setting(Shuffled(Pieces(width, height), draws), 400, width, f, before))
    ensures var c := Setting(Shuffled(Pieces(width, height), draws), 400, width, f, before);
      && IsRun(c, Start(c), run)
      && var s := After(c, Start(c), run);
         PutTogether(s, w, v) && Overlap(s.workers[w].put.value, s.workers[v].put.value)
  {
    var ps := Shuffled(Pieces(width, height), draws);
    var c := Setting(ps, 400, width, f, before);
    PiecesDisjoint(width, height);
    ShuffledApart(Pieces(width, height), draws);
    w, v :| 0 <= w < v < 400 && Overlap(ps[w], ps[v]);
    run := FirstRound(c, w, v);
  }

  lemma {:induction false} FirstRound(c: Setting, w: nat, v: nat) returns (run: seq<Action>)
    requires ValidSetting(c) && c.count == 400 && w < v < 400
    ensures IsRun(c, Start(c), run)
    ensures var s := After(c, Start(c), run);
      PutTogether(s, w, v) && s.workers[w].put == Some(c.pieces[w]) && s.workers[v].put == Some(c.pieces[v])
  {
    assert |c.pieces| == 400;
    hide Overlap, Pieces, Inv, Store, Landed, ValidSetting;
    var s0 := Start(c);
    var s1 := Do(c, s0, Fence);
    var s2 := Do(c, s1, RootLocal);
    var s3 := Do(c, s2, Fence);
    assert forall x | 0 <= x < 400 :: s3.workers[x].pc.Working? && s3.workers[x].window == Piece(x + 1, c.pieces[x]);
    var s4 := Do(c, s3, WorkerLocal(w));
    var s5 := Do(c, s4, WorkerLocal(v));
    run := [Fence, RootLocal, Fence, WorkerLocal(w), WorkerLocal(v)];
    Prepend(c, s4, WorkerLocal(v), []);
    Prepend(c, s3, WorkerLocal(w), [WorkerLocal(v)]);
    Prepend(c, s2, Fence, [WorkerLocal(w), WorkerLocal(v)]);
    Prepend(c, s1, RootLocal, [Fence, WorkerLocal(w), WorkerLocal(v)]);
    Prepend(c, s0, Fence, [RootLocal, Fence, WorkerLocal(w), WorkerLocal(v)]);
  }

  lemma {:induction false} Prepend(c: Setting, s: State, a: Action, run: seq<Action>)
    requires |c.pieces| == 400 && Enabled(s, a) && IsRun(c, Do(c, s, a), run)
    ensures IsRun(c, s, [a] + run) && After(c, s, [a] + run) == After(c, Do(c, s, a), run)
  {
    assert ([a] + run)[1..] == run;
  }

  lemma {:induction false} MeasureIsNatural(c: Setting, s: State)
    requires |s.workers| == c.count
    ensures Measure(c, s) >= 0
  {
    MulLe(c.count + 5, 0, 400 - Handed(c, s.epoch));
  }

  ghost predicate Complete(s: State) {
    s.root.Finished? && forall w | 0 <= w < |s.workers| :: s.workers[w].pc.Exited?
  }

  /** No process waits in a fence for ever. */
  lemma {:induction false} Progress(c: Setting, s: State) returns (a: Action)
    requires ValidSetting(c) && Inv(c, s) && !Complete(s)
    ensures Enabled(s, a)
  {
    hide PaintAll, FitsImage, Handed;
    if Enabled(s, RootLocal) {
      a := RootLocal;
    } else if w: nat :| w < c.count && s.workers[w].pc.Working? {
      a := WorkerLocal(w);
    } else {
      a := Fence;
    }
  }

  /** 400 pieces in rounds of `count`. */
  function Rounds(count: nat): nat
    requires count > 0
  {
    (400 + count - 1) / count
  }

  lemma {:induction false} RoundsNeeded(c: Setting, e: nat)
    requires c.count >= 1 && e > 0 && Handed(c, e - 1) < 400 && Handed(c, e) == 400
    ensures e == Rounds(c.count)
  {
    var p := c.count;
    assert e * p == (e - 1) * p + p;
    QuotientAndRest(e, e * p - 400, p);
    var rest := 400 + p - 1 - e * p;
    assert 0 <= rest < p;
    QuotientAndRest(e, rest, p);
  }

  /** A run that cannot go on is complete, and has drawn and shown every piece once and in order. */
  lemma {:induction false} StuckMeansComplete(c: Setting, run: seq<Action>)
    requires ValidSetting(c) && IsRun(c, Start(c), run)
    requires forall a :: !Enabled(After(c, Start(c), run), a)
    ensures var s := After(c, Start(c), run);
      && Complete(s) && |s.workers| == c.count
      && s.fences == 3 * Rounds(c.count) + 2
      && (forall w | 0 <= w < c.count :: s.workers[w].fences == s.fences)
      && s.drawn == c.pieces && s.shown == c.pieces
      && s.grid == PaintAll(c.before, c.pieces, c.width, c.f)
  {
    StartInv(c);
    RunKeeps(c, Start(c), run);
    var s := After(c, Start(c), run);
    hide IsRun, After, PaintAll, FitsImage, Handed;
    if !Complete(s) {
      var a := Progress(c, s);
      assert false;
    }
    RoundsNeeded(c, s.epoch);
    assert c.pieces[..400] == c.pieces;
  }

  /** Main theorem: every run that cannot go on has passed exactly 3 * ceil(400 / workers) + 2 fences in
      every process, has drawn and shown every piece once and in order, and has computed the image. */
  lemma {:induction false} EveryRunComputesTheImage(width: nat, height: nat, draws: seq<(nat, nat)>, count: nat, f: Pixels,
                                 before: seq<int>, run: seq<Action>)
    requires width > 0 && height > 0 && Shape(width, height, width) && |before| == width * height
    requires 1 <= count && forall d | d in draws :: d.0 < 400 && d.1 < 400
    requires var c := Setting(Shuffled(Pieces(width, height), draws), count, width, f, before);
      IsRun(c, Start(c), run) && forall a :: !Enabled(After(c, Start(c), run), a)
    ensures var c := Setting(Shuffled(Pieces(width, height), draws), count, width, f, before);
      var s := After(c, Start(c), run);
      && Complete(s) && |s.workers| == count
      && s.fences == 3 * Rounds(count) + 2
      && (forall w | 0 <= w < count :: s.workers[w].fences == s.fences)
      && s.drawn == c.pieces && s.shown == c.pieces
      && IsImage(s.grid, f, width, height)
  {
    hide IsRun, After;
    var ps := Pieces(width, height);
    var c := Setting(Shuffled(ps, draws), count, width, f, before);
    ShuffleReorders(ps, draws);
    SameMembers(c.pieces, ps);
    forall r | r in c.pieces ensures FitsImage(r, width, |before|) {
      PieceFits(width, height, width, r);
    }
    StuckMeansComplete(c, run);
    ShapeIsRight(width, height, width, f, before, c.pieces);
  }
}
