/** The root hands pieces of the image to workers on demand and collects their results from any of them.
    Worker w of this model (counted from 0) is the process of rank w + 1. */
module MasterWorker {
  import opened Tiles

  // ---- State ----

  /** A work message; id 0 tells the worker to stop. */
  datatype Work = Work(id: nat, rect: Rect)

  datatype Doing =
    | Waiting                 // blocked in the receive of the next piece
    | Busy(work: Work)        // has a piece, has not sent anything for it
    | Sending(work: Work)     // has announced its result, has not sent the data
    | Stopped

  /** A worker and its three first-in first-out channels, one for each message tag. */
  datatype Worker = Worker(
    doing: Doing,
    work: seq<Work>,          // from the root, tag 100
    headers: seq<Rect>,       // to the root, tag 200
    data: seq<seq<int>>,      // to the root, tag 201
    stops: nat)               // history: stop messages ever sent to this worker

  datatype Root =
    | First(next: nat)        // handing one piece to each worker
    | Main                    // waiting for any header, work is left
    | MainData(from: nat, rect: Rect)
    | Last(count: nat)        // waiting for any header, no work is left
    | LastData(count: nat, from: nat, rect: Rect)
    | Finished

  datatype State = State(
    root: Root,
    k: nat,                   // pieces handed out
    workers: seq<Worker>,
    grid: seq<int>,
    drawn: seq<Rect>)         // history: pieces put into the image, in order

  /** What does not change while one image is computed. */
  datatype Setting = Setting(pieces: seq<Rect>, count: nat, height: nat, f: Pixels, before: seq<int>)

  ghost predicate ValidSetting(c: Setting) {
    && |c.pieces| == 400 && 1 <= c.count <= 400
    && forall r | r in c.pieces :: FitsImage(r, c.height, |c.before|)
  }

  function Start(c: Setting): State {
    State(First(0), 0, seq(c.count, _ => Worker(Waiting, [], [], [], 0)), c.before, [])
  }

  // ---- Steps ----

  datatype Action =
    | RootSend                // the next of the first pieces
    | RootHeader(w: nat)      // a header from worker w, which may be any worker that has sent one
    | RootData                // the data announced by that header; then new work, or a stop
    | WorkerReceive(w: nat)
    | WorkerHeader(w: nat)
    | WorkerData(w: nat)

  predicate Enabled(s: State, a: Action) {
    match a
    case RootSend => s.root.First? && s.root.next < |s.workers|
    case RootHeader(w) => (s.root.Main? || s.root.Last?) && w < |s.workers| && s.workers[w].headers != []
    case RootData =>
      (s.root.MainData? || s.root.LastData?) && s.root.from < |s.workers| && s.workers[s.root.from].data != []
    case WorkerReceive(w) => w < |s.workers| && s.workers[w].doing.Waiting? && s.workers[w].work != []
    case WorkerHeader(w) => w < |s.workers| && s.workers[w].doing.Busy?
    case WorkerData(w) => w < |s.workers| && s.workers[w].doing.Sending?
  }

  function Send(s: State, w: nat, m: Work): seq<Worker>
    requires w < |s.workers|
  {
    s.workers[w := s.workers[w].(work := s.workers[w].work + [m])]
  }

  /** What the root waits for once `k` pieces are handed out. */
  function Phase(k: nat): Root { if k < 400 then Main else Last(0) }

  const NOTHING := Rect(0, 0, 0, 0)

  function PieceAt(c: Setting, k: nat): Rect { if k < |c.pieces| then c.pieces[k] else NOTHING }

  /** The worker's loops run over nothing when the piece is empty. */
  function Result(c: Setting, r: Rect): seq<int> { if r.Valid() then Computed(c.f, r) else [] }

  /** Stores a result; data that does not fit its header or the image never arrives, as is proved below. */
  ghost function Collect(c: Setting, grid: seq<int>, r: Rect, d: seq<int>): seq<int> {
    if FitsImage(r, c.height, |grid|) && |d| == r.Area() then Painted(grid, r, c.height, d, r.Area()) else grid
  }

  ghost function Do(c: Setting, s: State, a: Action): State
    requires Enabled(s, a)
  {
    match a
    case RootSend =>
      var i := s.root.next;
      s.(workers := Send(s, i, Work(s.k + 1, PieceAt(c, s.k))),
         k := s.k + 1,
         root := if i + 1 < |s.workers| then First(i + 1) else Phase(s.k + 1))
    case RootHeader(w) =>
      var h := s.workers[w].headers[0];
      s.(workers := s.workers[w := s.workers[w].(headers := s.workers[w].headers[1..])],
         root := if s.root.Main? then MainData(w, h) else LastData(s.root.count, w, h))
    case RootData =>
      var w, r := s.root.from, s.root.rect;
      var d := s.workers[w].data[0];
      var t := s.(workers := s.workers[w := s.workers[w].(data := s.workers[w].data[1..])],
                  grid := Collect(c, s.grid, r, d),
                  drawn := s.drawn + [r]);
      if s.root.MainData? then
        t.(workers := Send(t, w, Work(s.k + 1, PieceAt(c, s.k))), k := s.k + 1, root := Phase(s.k + 1))
      else
        var stopped := Send(t, w, Work(0, NOTHING));
        t.(workers := stopped[w := stopped[w].(stops := stopped[w].stops + 1)],
           root := if s.root.count + 1 < |s.workers| then Last(s.root.count + 1) else Finished)
    case WorkerReceive(w) =>
      var me := s.workers[w];
      var m := me.work[0];
      s.(workers := s.workers[w := me.(work := me.work[1..], doing := if m.id == 0 then Stopped else Busy(m))])
    case WorkerHeader(w) =>
      var me := s.workers[w];
      s.(workers := s.workers[w := me.(headers := me.headers + [me.doing.work.rect],
                                       doing := Sending(me.doing.work))])
    case WorkerData(w) =>
      var me := s.workers[w];
      s.(workers := s.workers[w := me.(data := me.data + [Result(c, me.doing.work.rect)], doing := Waiting)])
  }

  // ---- The invariant ----

  /** Where the one thing that a worker is concerned with is at the moment. */
  datatype Stage =
    | Unused                       // nothing handed out yet
    | Sent(rect: Rect)             // the piece is on its way
    | Computing(rect: Rect)
    | Announced(rect: Rect)        // header sent, data not yet
    | Returned(rect: Rect)         // header and data sent
    | Stopping                     // the stop message is on its way
    | Done

  /** Whether the root has already taken this worker's header. */
  predicate Taken(s: State, w: nat) {
    (s.root.MainData? || s.root.LastData?) && s.root.from == w
  }

  function StageOf(s: State, w: nat): Stage
    requires w < |s.workers|
  {
    var me := s.workers[w];
    if me.doing.Stopped? then Done
    else if me.doing.Busy? then Computing(me.doing.work.rect)
    else if me.doing.Sending? then Announced(me.doing.work.rect)
    else if me.work != [] then (if me.work[0].id == 0 then Stopping else Sent(me.work[0].rect))
    else if me.headers != [] then Returned(me.headers[0])
    else if Taken(s, w) then Returned(s.root.rect)
    else Unused
  }

  ghost predicate Good(c: Setting, r: Rect) {
    r in c.pieces && FitsImage(r, c.height, |c.before|)
  }

  /** The channels of a worker hold what its stage says, and nothing else. */
  ghost predicate Consistent(c: Setting, s: State, w: nat)
    requires w < |s.workers|
  {
    var me := s.workers[w];
    match StageOf(s, w)
    case Unused => me == Worker(Waiting, [], [], [], 0) && !Taken(s, w)
    case Sent(r) =>
      Good(c, r) && me == Worker(Waiting, [me.work[0]], [], [], 0) && me.work[0].rect == r && !Taken(s, w)
    case Computing(r) =>
      Good(c, r) && me == Worker(Busy(me.doing.work), [], [], [], 0) && me.doing.work.rect == r && !Taken(s, w)
    case Announced(r) =>
      && Good(c, r) && me.doing.work.rect == r
      && me == Worker(Sending(me.doing.work), [], if Taken(s, w) then [] else [r], [], 0)
      && (Taken(s, w) ==> s.root.rect == r)
    case Returned(r) =>
      && Good(c, r)
      && me == Worker(Waiting, [], if Taken(s, w) then [] else [r], [Result(c, r)], 0)
      && (Taken(s, w) ==> s.root.rect == r)
    case Stopping => me == Worker(Waiting, [me.work[0]], [], [], 1) && !Taken(s, w)
    case Done => me == Worker(Stopped, [], [], [], 1) && !Taken(s, w)
  }

  /** Whether the worker holds piece r or has it on its way, in either direction. */
  function Holding(g: Stage, r: Rect): nat {
    if (g.Sent? || g.Computing? || g.Announced? || g.Returned?) && g.rect == r then 1 else 0
  }

  predicate Ended(g: Stage) { g.Stopping? || g.Done? }

  /** How often piece r is with the first n workers. */
  function Held(s: State, n: nat, r: Rect): nat
    requires n <= |s.workers|
  {
    if n == 0 then 0 else Held(s, n - 1, r) + Holding(StageOf(s, n - 1), r)
  }

  /** Every piece handed out is either with a worker or in the image, as often as it was handed out. */
  ghost predicate Conserved(c: Setting, s: State)
    requires |s.workers| == c.count && s.k <= |c.pieces|
  {
    forall r :: multiset(c.pieces[..s.k])[r] == multiset(s.drawn)[r] + Held(s, c.count, r)
  }

  function EndedCount(s: State, n: nat): nat
    requires n <= |s.workers|
  {
    if n == 0 then 0 else EndedCount(s, n - 1) + if Ended(StageOf(s, n - 1)) then 1 else 0
  }

  /** How many workers the root has told to stop. */
  function StopsSent(s: State): nat {
    match s.root
    case Last(n) => n
    case LastData(n, _, _) => n
    case Finished => |s.workers|
    case _ => 0
  }

  ghost predicate RootConsistent(s: State) {
    match s.root
    case First(n) => n == s.k < |s.workers|
    case Main => |s.workers| <= s.k < 400
    case MainData(w, _) => |s.workers| <= s.k < 400 && w < |s.workers|
    case Last(n) => s.k == 400 && n < |s.workers|
    case LastData(n, w, _) => s.k == 400 && n < |s.workers| && w < |s.workers|
    case Finished => s.k == 400
  }

  ghost predicate Inv(c: Setting, s: State) {
    && |s.workers| == c.count && s.k <= 400 && |c.pieces| == 400
    && RootConsistent(s)
    && (forall w | 0 <= w < c.count :: Consistent(c, s, w))
    && (forall w | 0 <= w < c.count :: StageOf(s, w).Unused? <==> s.root.First? && s.root.next <= w)
    && Conserved(c, s)
    && EndedCount(s, c.count) == StopsSent(s)
    // the image is what the drawn pieces make of it
    && (forall r | r in s.drawn :: Good(c, r))
    && s.grid == PaintAll(c.before, s.drawn, c.height, c.f)
  }

  // ---- Every step keeps the invariant ----

  /** Only worker w's stage changes. */
  ghost predicate OnlyAt(s: State, t: State, w: nat) {
    && w < |s.workers| == |t.workers|
    && forall v | 0 <= v < |s.workers| && v != w :: StageOf(t, v) == StageOf(s, v)
  }

  function EndedOne(g: Stage): nat { if Ended(g) then 1 else 0 }

  lemma {:induction false} HeldChange(s: State, t: State, w: nat, n: nat, r: Rect)
    requires OnlyAt(s, t, w) && n <= |s.workers|
    ensures Held(t, n, r) == Held(s, n, r)
      + if w < n then Holding(StageOf(t, w), r) - Holding(StageOf(s, w), r) else 0
  {
    if n > 0 { HeldChange(s, t, w, n - 1, r); }
  }

  /** Handing out and drawing pieces conserves them. */
  lemma {:induction false} ConservedBy(c: Setting, s: State, t: State, w: nat, out: seq<Rect>, drawn: seq<Rect>)
    requires OnlyAt(s, t, w) && |s.workers| == c.count && s.k <= |c.pieces|
    requires Conserved(c, s)
    requires t.k <= |c.pieces| && s.k <= t.k && c.pieces[..t.k] == c.pieces[..s.k] + out
    requires t.drawn == s.drawn + drawn
    requires forall r :: multiset(out)[r] + Holding(StageOf(s, w), r) == multiset(drawn)[r] + Holding(StageOf(t, w), r)
    ensures Conserved(c, t)
  {
    forall r ensures multiset(c.pieces[..t.k])[r] == multiset(t.drawn)[r] + Held(t, c.count, r) {
      HeldChange(s, t, w, c.count, r);
    }
  }

  lemma {:induction false} EndedChange(s: State, t: State, w: nat, n: nat)
    requires OnlyAt(s, t, w) && n <= |s.workers|
    ensures EndedCount(t, n) == EndedCount(s, n)
      + if w < n then EndedOne(StageOf(t, w)) - EndedOne(StageOf(s, w)) else 0
  {
    if n > 0 { EndedChange(s, t, w, n - 1); }
  }

  /** A step that concerns worker w alone leaves the others as they are. */
  lemma {:induction false} OthersKeep(c: Setting, s: State, t: State, w: nat)
    requires |s.workers| == |t.workers| == c.count && w < c.count
    requires forall v | 0 <= v < c.count :: Consistent(c, s, v)
    requires forall v | 0 <= v < c.count && v != w ::
      t.workers[v] == s.workers[v] && Taken(t, v) == Taken(s, v) && (Taken(t, v) ==> t.root.rect == s.root.rect)
    ensures OnlyAt(s, t, w)
    ensures forall v | 0 <= v < c.count && v != w :: Consistent(c, t, v)
  {
    forall v | 0 <= v < c.count && v != w ensures StageOf(t, v) == StageOf(s, v) && Consistent(c, t, v) {
      assert Consistent(c, s, v);
    }
  }

  lemma {:induction false} StartInv(c: Setting)
    requires ValidSetting(c)
    ensures Inv(c, Start(c))
  {
    var s := Start(c);
    NoneHeld(s, c.count);
    assert c.pieces[..0] == [];
  }

  lemma {:induction false} NoneHeld(s: State, n: nat)
    requires n <= |s.workers| && forall w | 0 <= w < n :: StageOf(s, w).Unused?
    ensures EndedCount(s, n) == 0 && forall r :: Held(s, n, r) == 0
  {
    if n > 0 { NoneHeld(s, n - 1); }
  }

  lemma {:induction false} SendKeeps(c: Setting, s: State)
    requires ValidSetting(c) && Inv(c, s) && Enabled(s, RootSend)
    ensures Inv(c, Do(c, s, RootSend))
  {
    hide PaintAll, Collect, Result, FitsImage, Conserved;
    var i := s.root.next;
    var t := Do(c, s, RootSend);
    var r := c.pieces[s.k];
    assert Consistent(c, s, i) && StageOf(s, i).Unused? && StageOf(t, i) == Sent(r);
    OthersKeep(c, s, t, i);
    EndedChange(s, t, i, c.count);
    assert c.pieces[..s.k + 1] == c.pieces[..s.k] + [r];
    ConservedBy(c, s, t, i, [r], []);
  }

  lemma {:induction false} HeaderKeeps(c: Setting, s: State, w: nat)
    requires ValidSetting(c) && Inv(c, s) && Enabled(s, RootHeader(w))
    ensures Inv(c, Do(c, s, RootHeader(w)))
  {
    var t := Do(c, s, RootHeader(w));
    assert Consistent(c, s, w) && StageOf(t, w) == StageOf(s, w);
    OthersKeep(c, s, t, w);
    EndedChange(s, t, w, c.count);
    ConservedBy(c, s, t, w, [], []);
  }

  lemma {:induction false} WorkerKeeps(c: Setting, s: State, a: Action, w: nat)
    requires ValidSetting(c) && Inv(c, s) && Enabled(s, a)
    requires a == WorkerReceive(w) || a == WorkerHeader(w) || a == WorkerData(w)
    ensures Inv(c, Do(c, s, a))
  {
    hide PaintAll, Collect, FitsImage, Conserved;
    var t := Do(c, s, a);
    assert Consistent(c, s, w);
    assert Consistent(c, t, w);
    OthersKeep(c, s, t, w);
    EndedChange(s, t, w, c.count);
    ConservedBy(c, s, t, w, [], []);
  }

  lemma {:induction false} CollectPaints(c: Setting, s: State, r: Rect)
    requires Inv(c, s) && Good(c, r)
    ensures Collect(c, s.grid, r, Result(c, r)) == PaintAll(c.before, s.drawn + [r], c.height, c.f)
  {
    assert (s.drawn + [r])[..|s.drawn|] == s.drawn;
  }

  /** Taking a result leaves the other workers alone and puts the piece into the image. */
  lemma {:induction false} DataDraws(c: Setting, s: State)
    requires ValidSetting(c) && Inv(c, s) && Enabled(s, RootData)
    ensures var t, w, r := Do(c, s, RootData), s.root.from, s.root.rect;
      && StageOf(s, w) == Returned(r) && Good(c, r)
      && OnlyAt(s, t, w) && (forall v | 0 <= v < c.count && v != w :: Consistent(c, t, v))
      && t.drawn == s.drawn + [r] && t.grid == PaintAll(c.before, t.drawn, c.height, c.f)
      && s.workers[w] == Worker(Waiting, [], [], [Result(c, r)], 0)
  {
    var t, w, r := Do(c, s, RootData), s.root.from, s.root.rect;
    assert Consistent(c, s, w) && StageOf(s, w) == Returned(r);
    CollectPaints(c, s, r);
    OthersKeep(c, s, t, w);
  }

  lemma {:induction false} MainDataKeeps(c: Setting, s: State)
    requires ValidSetting(c) && Inv(c, s) && Enabled(s, RootData) && s.root.MainData?
    ensures Inv(c, Do(c, s, RootData))
  {
    hide PaintAll, Collect, Result, FitsImage, Conserved;
    var t := Do(c, s, RootData);
    var w, r := s.root.from, s.root.rect;
    DataDraws(c, s);
    EndedChange(s, t, w, c.count);
    assert StageOf(t, w) == Sent(c.pieces[s.k]);
    assert c.pieces[..s.k + 1] == c.pieces[..s.k] + [c.pieces[s.k]];
    ConservedBy(c, s, t, w, [c.pieces[s.k]], [r]);
  }

  lemma {:induction false} LastDataKeeps(c: Setting, s: State)
    requires ValidSetting(c) && Inv(c, s) && Enabled(s, RootData) && s.root.LastData?
    ensures Inv(c, Do(c, s, RootData))
  {
    hide PaintAll, Collect, Result, FitsImage, Conserved;
    var t := Do(c, s, RootData);
    var w, r := s.root.from, s.root.rect;
    DataDraws(c, s);
    EndedChange(s, t, w, c.count);
    assert StageOf(t, w) == Stopping;
    ConservedBy(c, s, t, w, [], [r]);
  }

  lemma {:induction false} StepKeeps(c: Setting, s: State, a: Action)
    requires ValidSetting(c) && Inv(c, s) && Enabled(s, a)
    ensures Inv(c, Do(c, s, a))
  {
    match a
    case RootSend => SendKeeps(c, s);
    case RootHeader(w) => HeaderKeeps(c, s, w);
    case RootData => if s.root.MainData? { MainDataKeeps(c, s); } else { LastDataKeeps(c, s); }
    case WorkerReceive(w) => WorkerKeeps(c, s, a, w);
    case WorkerHeader(w) => WorkerKeeps(c, s, a, w);
    case WorkerData(w) => WorkerKeeps(c, s, a, w);
  }

  // ---- Every run ends ----

  /** How many steps a worker's present concern still needs. */
  function Rank(s: State, w: nat): nat
    requires w < |s.workers|
  {
    match StageOf(s, w)
    case Unused => 0
    case Sent(_) => 5
    case Computing(_) => 4
    case Announced(_) => if Taken(s, w) then 2 else 3
    case Returned(_) => if Taken(s, w) then 1 else 2
    case Stopping => 1
    case Done => 0
  }

  function Ranks(s: State, n: nat): nat
    requires n <= |s.workers|
  {
    if n == 0 then 0 else Ranks(s, n - 1) + Rank(s, n - 1)
  }

  lemma {:induction false} RanksChange(s: State, t: State, w: nat, n: nat)
    requires w < |s.workers| == |t.workers| && n <= |s.workers|
    requires forall v | 0 <= v < |s.workers| && v != w :: Rank(t, v) == Rank(s, v)
    ensures Ranks(t, n) == Ranks(s, n) + if w < n then Rank(t, w) - Rank(s, w) else 0
  {
    if n > 0 { RanksChange(s, t, w, n - 1); }
  }

  function Measure(s: State): int {
    6 * (400 - s.k) + 2 * (|s.workers| - StopsSent(s)) + Ranks(s, |s.workers|)
  }

  /** The worker that an action concerns. */
  function Concerned(s: State, a: Action): nat
    requires Enabled(s, a)
  {
    match a
    case RootSend => s.root.next
    case RootHeader(w) => w
    case RootData => s.root.from
    case WorkerReceive(w) => w
    case WorkerHeader(w) => w
    case WorkerData(w) => w
  }

  lemma {:induction false} OthersKeepRank(c: Setting, s: State, a: Action)
    requires Inv(c, s) && Enabled(s, a)
    ensures var t, w := Do(c, s, a), Concerned(s, a);
      && |t.workers| == |s.workers| && w < c.count
      && forall v | 0 <= v < c.count && v != w :: Rank(t, v) == Rank(s, v)
  {
    hide PaintAll, Collect, Result, FitsImage;
    OthersKeep(c, s, Do(c, s, a), Concerned(s, a));
  }

  /** What a step costs the worker concerned, against what it brings the root nearer its end. */
  lemma {:induction false} OwnRank(c: Setting, s: State, a: Action)
    requires Inv(c, s) && ValidSetting(c) && Enabled(s, a)
    ensures var t, w := Do(c, s, a), Concerned(s, a);
      Rank(t, w) + 6 * (s.k - t.k) + 2 * (StopsSent(s) - StopsSent(t)) < Rank(s, w)
  {
    hide PaintAll, Collect, Result, FitsImage;
    assert Consistent(c, s, Concerned(s, a));
  }

  lemma {:induction false} StepDecreases(c: Setting, s: State, a: Action)
    requires ValidSetting(c) && Inv(c, s) && Enabled(s, a)
    ensures 0 <= Measure(Do(c, s, a)) < Measure(s)
  {
    var t, w := Do(c, s, a), Concerned(s, a);
    OthersKeepRank(c, s, a);
    OwnRank(c, s, a);
    StepKeeps(c, s, a);
    hide PaintAll, Collect, Result, FitsImage, Do, Rank, Conserved;
    RanksChange(s, t, w, c.count);
  }

  ghost predicate IsRun(c: Setting, s: State, run: seq<Action>)
    decreases |run|
  {
    run == [] || (Enabled(s, run[0]) && IsRun(c, Do(c, s, run[0]), run[1..]))
  }

  ghost function After(c: Setting, s: State, run: seq<Action>): State
    requires IsRun(c, s, run)
    decreases |run|
  {
    if run == [] then s else After(c, Do(c, s, run[0]), run[1..])
  }

  lemma {:induction false} RunKeeps(c: Setting, s: State, run: seq<Action>)
    requires ValidSetting(c) && Inv(c, s) && IsRun(c, s, run)
    ensures Inv(c, After(c, s, run))
    ensures 0 <= Measure(After(c, s, run)) <= Measure(s) - |run|
    decreases |run|
  {
    if run == [] {
      assert StopsSent(s) <= c.count;
    } else {
      StepKeeps(c, s, run[0]);
      StepDecreases(c, s, run[0]);
      RunKeeps(c, Do(c, s, run[0]), run[1..]);
    }
  }

  // ---- Pieces are known by their numbers ----

  ghost predicate Numbered(c: Setting, m: Work) { m.id > 0 ==> m.id <= |c.pieces| && m.rect == c.pieces[m.id - 1] }

  ghost predicate HasNumbered(c: Setting, me: Worker) {
    && (forall m | m in me.work :: Numbered(c, m))
    && (me.doing.Busy? || me.doing.Sending? ==> Numbered(c, me.doing.work))
  }

  ghost predicate AllNumbered(c: Setting, s: State) { forall w | 0 <= w < |s.workers| :: HasNumbered(c, s.workers[w]) }

  lemma {:induction false} SentIsNumbered(c: Setting, s: State, w: nat, m: Work)
    requires AllNumbered(c, s) && w < |s.workers| && Numbered(c, m)
    ensures HasNumbered(c, Send(s, w, m)[w])
    ensures forall v | 0 <= v < |s.workers| :: HasNumbered(c, Send(s, w, m)[v])
  {
    hide Numbered;
    assert HasNumbered(c, s.workers[w]);
  }

  lemma {:induction false} NumbersKeep(c: Setting, s: State, a: Action)
    requires ValidSetting(c) && Inv(c, s) && Enabled(s, a) && AllNumbered(c, s)
    ensures AllNumbered(c, Do(c, s, a))
  {
    assert |c.pieces| == 400 && c.count <= 400;
    hide Consistent, Conserved, PaintAll, ValidSetting, Collect, Result;
    match a
    case RootSend => SentIsNumbered(c, s, s.root.next, Work(s.k + 1, PieceAt(c, s.k)));
    case RootData =>
      var w := s.root.from;
      var t := s.(workers := s.workers[w := s.workers[w].(data := s.workers[w].data[1..])]);
      assert HasNumbered(c, s.workers[w]);
      SentIsNumbered(c, t, w, if s.root.MainData? then Work(s.k + 1, PieceAt(c, s.k)) else Work(0, NOTHING));
    case WorkerReceive(w) =>
      var me := s.workers[w];
      assert HasNumbered(c, me) && me.work[0] in me.work;
      assert forall m | m in me.work[1..] :: m in me.work;
    case RootHeader(w) => assert HasNumbered(c, s.workers[w]);
    case WorkerHeader(w) => assert HasNumbered(c, s.workers[w]);
    case WorkerData(w) => assert HasNumbered(c, s.workers[w]);
  }

  /** In every run each piece that is on its way to a worker or with it carries its own number. */
  lemma {:induction false} RunKeepsNumbers(c: Setting, s: State, run: seq<Action>)
    requires ValidSetting(c) && Inv(c, s) && AllNumbered(c, s) && IsRun(c, s, run)
    ensures AllNumbered(c, After(c, s, run))
    decreases |run|
  {
    hide Inv, Do, Enabled, AllNumbered, ValidSetting;
    if run != [] {
      StepKeeps(c, s, run[0]);
      NumbersKeep(c, s, run[0]);
      RunKeepsNumbers(c, Do(c, s, run[0]), run[1..]);
    }
  }

  lemma {:induction false} PiecesAreNumbered(c: Setting, run: seq<Action>)
    requires ValidSetting(c) && IsRun(c, Start(c), run)
    ensures AllNumbered(c, After(c, Start(c), run))
  {
    hide Inv, IsRun, After;
    StartInv(c);
    RunKeepsNumbers(c, Start(c), run);
  }

  /** Termination: however root and workers interleave, at most 2400 + 2 * workers steps are ever made. */
  lemma {:induction false} RunsEnd(c: Setting, run: seq<Action>)
    requires ValidSetting(c) && IsRun(c, Start(c), run)
    ensures |run| <= 2400 + 2 * c.count
  {
    StartInv(c);
    RunKeeps(c, Start(c), run);
    NoRanks(Start(c), c.count);
  }

  lemma {:induction false} NoRanks(s: State, n: nat)
    requires n <= |s.workers| && forall w | 0 <= w < n :: StageOf(s, w).Unused?
    ensures Ranks(s, n) == 0
  {
    if n > 0 { NoRanks(s, n - 1); }
  }

  // ---- No run gets stuck before everything is done ----

  ghost predicate Complete(s: State) {
    s.root.Finished? && forall w | 0 <= w < |s.workers| :: StageOf(s, w).Done?
  }

  lemma {:induction false} SomeoneRuns(s: State, n: nat) returns (w: nat)
    requires n <= |s.workers| && EndedCount(s, n) < n
    ensures w < n && !Ended(StageOf(s, w))
  {
    if Ended(StageOf(s, n - 1)) {
      w := SomeoneRuns(s, n - 1);
    } else {
      w := n - 1;
    }
  }

  lemma {:induction false} AllEnded(s: State, n: nat, w: nat)
    requires w < n <= |s.workers| && EndedCount(s, n) == n
    ensures Ended(StageOf(s, w))
  {
    CountBound(s, n - 1);
    if w < n - 1 { AllEnded(s, n - 1, w); }
  }

  lemma {:induction false} CountBound(s: State, n: nat)
    requires n <= |s.workers|
    ensures EndedCount(s, n) <= n
  {
    if n > 0 { CountBound(s, n - 1); }
  }

  /** No deadlock: unless everything is done, some process can make a step. */
  lemma {:induction false} Progress(c: Setting, s: State) returns (a: Action)
    requires ValidSetting(c) && Inv(c, s) && !Complete(s)
    ensures Enabled(s, a)
  {
    if s.root.First? {
      return RootSend;
    }
    var w: nat;
    if s.root.MainData? || s.root.LastData? {
      w := s.root.from;
    } else if s.root.Finished? {
      w :| 0 <= w < c.count && !StageOf(s, w).Done?;
      AllEnded(s, c.count, w);
    } else {
      w := SomeoneRuns(s, c.count);
    }
    assert Consistent(c, s, w) && !StageOf(s, w).Unused?;
    match StageOf(s, w)
    case Sent(_) => a := WorkerReceive(w);
    case Computing(_) => a := WorkerHeader(w);
    case Announced(_) => a := WorkerData(w);
    case Returned(_) => a := if Taken(s, w) then RootData else RootHeader(w);
    case Stopping => a := WorkerReceive(w);
    case _ => assert false;
  }

  // ---- What a finished run has done ----

  lemma {:induction false} CompleteMeans(c: Setting, s: State)
    requires ValidSetting(c) && Inv(c, s) && Complete(s)
    ensures multiset(s.drawn) == multiset(c.pieces)
    ensures forall w | 0 <= w < c.count :: s.workers[w] == Worker(Stopped, [], [], [], 1)
    ensures s.grid == PaintAll(c.before, s.drawn, c.height, c.f)
  {
    forall w | 0 <= w < c.count ensures s.workers[w] == Worker(Stopped, [], [], [], 1) {
      assert Consistent(c, s, w);
    }
    NothingHeld(s, c.count);
    assert c.pieces[..400] == c.pieces;
    forall r ensures multiset(s.drawn)[r] == multiset(c.pieces)[r] {
    }
  }

  lemma {:induction false} NothingHeld(s: State, n: nat)
    requires n <= |s.workers| && forall w | 0 <= w < n :: StageOf(s, w).Done?
    ensures forall r :: Held(s, n, r) == 0
  {
    if n > 0 { NothingHeld(s, n - 1); }
  }

  /** Whatever the pieces are, as long as they fit into the image: a run that cannot go on has drawn each
      piece exactly once and sent each worker exactly one stop, and leaves no message in any channel. */
  lemma {:induction false} StuckMeansComplete(c: Setting, run: seq<Action>)
    requires ValidSetting(c) && IsRun(c, Start(c), run)
    requires forall a :: !Enabled(After(c, Start(c), run), a)
    ensures var s := After(c, Start(c), run);
      && s.root.Finished? && |s.workers| == c.count
      && multiset(s.drawn) == multiset(c.pieces)
      && (forall w | 0 <= w < c.count :: s.workers[w] == Worker(Stopped, [], [], [], 1))
      && (forall r | r in s.drawn :: FitsImage(r, c.height, |c.before|))
      && s.grid == PaintAll(c.before, s.drawn, c.height, c.f)
  {
    StartInv(c);
    RunKeeps(c, Start(c), run);
    var s := After(c, Start(c), run);
    if !Complete(s) {
      var a := Progress(c, s);
      assert false;
    }
    CompleteMeans(c, s);
  }

  /** The program's setting for an image of this size, whatever the shuffle. */
  function ImageSetting(width: nat, height: nat, draws: seq<(nat, nat)>, count: nat, f: Pixels, before: seq<int>): Setting
    requires width > 0 && height > 0
    requires forall d | d in draws :: d.0 < 400 && d.1 < 400
  {
    Setting(Shuffled(Pieces(width, height), draws), count, height, f, before)
  }

  /** Main theorem: for every shuffle, every number of workers from 1 to 400 and every interleaving, a
      run that cannot go on has drawn each piece exactly once and sent each worker exactly one stop,
      leaves no message in any channel, and has computed the image pixel by pixel. */
  lemma {:induction false} EveryRunComputesTheImage(width: nat, height: nat, draws: seq<(nat, nat)>, count: nat, f: Pixels,
                                 before: seq<int>, run: seq<Action>)
    requires width > 0 && height > 0 && Shape(width, height, height) && |before| == width * height
    requires 1 <= count <= 400 && forall d | d in draws :: d.0 < 400 && d.1 < 400
    requires var c := ImageSetting(width, height, draws, count, f, before);
      IsRun(c, Start(c), run) && forall a :: !Enabled(After(c, Start(c), run), a)
    ensures var c := ImageSetting(width, height, draws, count, f, before);
      var s := After(c, Start(c), run);
      && s.root.Finished? && |s.workers| == count
      && multiset(s.drawn) == multiset(Pieces(width, height))
      && (forall w | 0 <= w < count :: s.workers[w] == Worker(Stopped, [], [], [], 1))
      && IsImage(s.grid, f, width, height)
  {
    var c := ImageSetting(width, height, draws, count, f, before);
    var ps := Pieces(width, height);
    ShuffleReorders(ps, draws);
    SameMembers(c.pieces, ps);
    forall r | r in c.pieces ensures FitsImage(r, height, |before|) {
      PieceFits(width, height, height, r);
    }
    StuckMeansComplete(c, run);
    ShapeIsRight(width, height, height, f, before, After(c, Start(c), run).drawn);
  }
}
