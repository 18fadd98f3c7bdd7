/** How the image is cut into 400 pieces, shuffled, computed and put together again. */
module Tiles {
  import opened Basics

  type Pixels = (int, int) -> int  // the number of iterations at column i, row j

  /** The piece of columns i1..i2 and rows j1..j2, both ends included. */
  datatype Rect = Rect(i1: int, i2: int, j1: int, j2: int) {
    predicate Valid() { 0 <= i1 <= i2 && 0 <= j1 <= j2 }
    function Width(): nat requires Valid() { i2 + 1 - i1 }
    function Height(): nat requires Valid() { j2 + 1 - j1 }
    function Area(): nat requires Valid() { Width() * Height() }
    predicate Has(i: int, j: int) { i1 <= i <= i2 && j1 <= j <= j2 }
  }

  // ---- Cutting ----

  function Step(size: nat): nat { if size / 20 < 1 then 1 else size / 20 }

  function From(size: nat, a: nat): int { Min(Step(size) * a, size - 1) }

  function To(size: nat, a: nat): int { Min(Step(size) * (a + 1) - 1, size - 1) }

  lemma {:induction false} Bounds(size: nat, a: nat)
    requires size > 0
    ensures 0 <= From(size, a) <= To(size, a) < size
  {
    var s := Step(size);
    assert s * (a + 1) == s * a + s;
    assert s * a >= 0;
  }

  /** Piece k covers the k/20-th strip of columns and the k%20-th strip of rows. */
  function Piece(width: nat, height: nat, k: nat): (r: Rect)
    requires width > 0 && height > 0
    ensures r.Valid() && r.i2 < width && r.j2 < height
  {
    Bounds(width, k / 20);
    Bounds(height, k % 20);
    Rect(From(width, k / 20), To(width, k / 20), From(height, k % 20), To(height, k % 20))
  }

  function Pieces(width: nat, height: nat): seq<Rect>
    requires width > 0 && height > 0
  {
    seq(400, k requires 0 <= k => Piece(width, height, k))
  }

  /** How many columns (or rows) the strips reach: all of them below 20, else a multiple of 20. */
  function Reach(size: nat): nat { if size < 20 then size else 20 * (size / 20) }

  lemma {:induction false} StripOf(size: nat, x: nat) returns (a: nat)
    requires x < Reach(size)
    ensures a < 20 && From(size, a) <= x <= To(size, a)
  {
    if size < 20 {
      a := x;
    } else {
      var s := size / 20;
      a := x / s;
      assert s * 20 == 20 * s;
      DivMul(x, s);
      if a >= 20 {
        assert s * a >= s * 20 by { MulLe(s, 20, a); }
      }
      assert s * (a + 1) == s * a + s;
      MulLe(s, a + 1, 20);
    }
  }

  lemma {:induction false} DivMul(x: nat, s: nat)
    requires s > 0
    ensures s * (x / s) <= x < s * (x / s) + s
  {
  }

  lemma {:induction false} MulLe(s: nat, a: nat, b: nat)
    requires a <= b
    ensures s * a <= s * b
  {
  }

  lemma {:induction false} StripInReach(size: nat, a: nat, x: int)
    requires size > 0 && a < 20 && From(size, a) <= x <= To(size, a)
    ensures 0 <= x < Reach(size)
  {
    Bounds(size, a);
    if size >= 20 {
      MulLe(size / 20, a + 1, 20);
    }
  }

  /** The pieces cover exactly the pixels within reach. */
  lemma {:induction false} PiecesCover(width: nat, height: nat, i: int, j: int)
    requires width > 0 && height > 0
    ensures (exists r :: r in Pieces(width, height) && r.Has(i, j))
       <==> 0 <= i < Reach(width) && 0 <= j < Reach(height)
  {
    var ps := Pieces(width, height);
    if 0 <= i < Reach(width) && 0 <= j < Reach(height) {
      var a := StripOf(width, i);
      var b := StripOf(height, j);
      var k := 20 * a + b;
      assert k / 20 == a && k % 20 == b;
      assert ps[k].Has(i, j) && ps[k] in ps;
    }
    if r :| r in ps && r.Has(i, j) {
      var k :| 0 <= k < 400 && ps[k] == r;
      StripInReach(width, k / 20, i);
      StripInReach(height, k % 20, j);
    }
  }

  /** The work arrays as a list of pieces. */
  function Zip(i1: seq<int>, i2: seq<int>, j1: seq<int>, j2: seq<int>): seq<Rect>
    requires |i1| == |i2| == |j1| == |j2|
  {
    seq(|i1|, k requires 0 <= k < |i1| => Rect(i1[k], i2[k], j1[k], j2[k]))
  }

  method CutWork(width: nat, height: nat, i1: array<int>, i2: array<int>, j1: array<int>, j2: array<int>)
    requires width > 0 && height > 0
    requires i1.Length == i2.Length == j1.Length == j2.Length == 400
    requires i1 != i2 && i1 != j1 && i1 != j2 && i2 != j1 && i2 != j2 && j1 != j2
    modifies i1, i2, j1, j2
    ensures Zip(i1[..], i2[..], j1[..], j2[..]) == Pieces(width, height)
  {
    var istep := width / 20;
    var jstep := height / 20;
    if istep < 1 { istep := 1; }
    if jstep < 1 { jstep := 1; }
    var k := 0;
    for i := 0 to 20
      invariant k == 20 * i
      invariant forall m | 0 <= m < k :: var r := Piece(width, height, m);
        i1[m] == r.i1 && i2[m] == r.i2 && j1[m] == r.j1 && j2[m] == r.j2
    {
      for j := 0 to 20
        invariant k == 20 * i + j
        invariant forall m | 0 <= m < k :: var r := Piece(width, height, m);
          i1[m] == r.i1 && i2[m] == r.i2 && j1[m] == r.j1 && j2[m] == r.j2
      {
        assert k / 20 == i && k % 20 == j;
        i1[k] := Min(istep * i, width - 1);
        i2[k] := Min(istep * (i + 1) - 1, width - 1);
        j1[k] := Min(jstep * j, height - 1);
        j2[k] := Min(jstep * (j + 1) - 1, height - 1);
        k := k + 1;
      }
    }
  }

  // ---- Shuffling ----

  function Swapped<T>(s: seq<T>, a: nat, b: nat): seq<T>
    requires a < |s| && b < |s|
  {
    s[a := s[b]][b := s[a]]
  }

  /** The draws of the random number generator, as pairs of positions. */
  function Shuffled<T>(s: seq<T>, draws: seq<(nat, nat)>): (t: seq<T>)
    requires forall d | d in draws :: d.0 < |s| && d.1 < |s|
    ensures |t| == |s|
  {
    if draws == [] then s
    else
      var n := |draws| - 1;
      assert draws[n] in draws;
      Swapped(Shuffled(s, draws[..n]), draws[n].0, draws[n].1)
  }

  /** However the dice fall, shuffling only reorders. */
  lemma {:induction false} ShuffleReorders<T>(s: seq<T>, draws: seq<(nat, nat)>)
    requires forall d | d in draws :: d.0 < |s| && d.1 < |s|
    ensures multiset(Shuffled(s, draws)) == multiset(s)
  {
    if draws != [] {
      var n := |draws| - 1;
      assert draws[n] in draws;
      ShuffleReorders(s, draws[..n]);
      SwapReorders(Shuffled(s, draws[..n]), draws[n].0, draws[n].1);
    }
  }

  /** Every draw exchanges the two things at its places and leaves all others where they are. */
  lemma {:induction false} DrawExchanges<T>(s: seq<T>, draws: seq<(nat, nat)>, a: nat, b: nat, k: nat)
    requires forall d | d in draws + [(a, b)] :: d.0 < |s| && d.1 < |s|
    requires k < |s|
    ensures (forall d | d in draws :: d.0 < |s| && d.1 < |s|) && a < |s| && b < |s|
    ensures Shuffled(s, draws + [(a, b)])[k] == Shuffled(s, draws)[if k == a then b else if k == b then a else k]
    ensures Shuffled(s, []) == s
  {
    var more := draws + [(a, b)];
    assert more[..|more| - 1] == draws && more[|more| - 1] == (a, b);
    forall d | d in draws ensures d.0 < |s| && d.1 < |s| {
      assert d in more;
    }
    assert (a, b) in more;
  }

  lemma {:induction false} SwapReorders<T>(s: seq<T>, a: nat, b: nat)
    requires a < |s| && b < |s|
    ensures multiset(Swapped(s, a, b)) == multiset(s)
  {
  }

  lemma {:induction false} ZipSwap(i1: seq<int>, i2: seq<int>, j1: seq<int>, j2: seq<int>, a: nat, b: nat)
    requires |i1| == |i2| == |j1| == |j2| && a < |i1| && b < |i1|
    ensures Zip(Swapped(i1, a, b), Swapped(i2, a, b), Swapped(j1, a, b), Swapped(j2, a, b))
         == Swapped(Zip(i1, i2, j1, j2), a, b)
  {
  }

  method Swap(s: array<int>, a: nat, b: nat)
    requires a < s.Length && b < s.Length
    modifies s
    ensures s[..] == Swapped(old(s[..]), a, b)
  {
    var x := s[a];
    s[a] := s[b];
    s[b] := x;
  }

  method ShuffleWork(i1: array<int>, i2: array<int>, j1: array<int>, j2: array<int>, draws: seq<(nat, nat)>)
    requires i1.Length == i2.Length == j1.Length == j2.Length == 400 && |draws| == 500
    requires i1 != i2 && i1 != j1 && i1 != j2 && i2 != j1 && i2 != j2 && j1 != j2
    requires forall d | d in draws :: d.0 < 400 && d.1 < 400
    modifies i1, i2, j1, j2
    ensures Zip(i1[..], i2[..], j1[..], j2[..]) == Shuffled(old(Zip(i1[..], i2[..], j1[..], j2[..])), draws)
  {
    ghost var work := Zip(i1[..], i2[..], j1[..], j2[..]);
    for n := 0 to 500
      invariant Zip(i1[..], i2[..], j1[..], j2[..]) == Shuffled(work, draws[..n])
    {
      assert draws[n] in draws && draws[..n + 1][..n] == draws[..n];
      var (ii, jj) := draws[n];
      ZipSwap(i1[..], i2[..], j1[..], j2[..], ii, jj);
      Swap(i1, ii, jj);
      Swap(i2, ii, jj);
      Swap(j1, ii, jj);
      Swap(j2, ii, jj);
    }
    assert draws[..500] == draws;
  }

  // ---- Computing and collecting ----

  /** The pixel that a worker computes as number k of its piece: row by row. */
  function PixelOf(r: Rect, k: nat): (int, int)
    requires r.Valid()
  {
    (r.i1 + k % r.Width(), r.j1 + k / r.Width())
  }

  lemma {:induction false} PixelInside(r: Rect, k: nat)
    requires r.Valid() && k < r.Area()
    ensures r.Has(PixelOf(r, k).0, PixelOf(r, k).1)
  {
    var w, h := r.Width(), r.Height();
    DivMul(k, w);
    assert w * h == h * w;
    if k / w >= h {
      MulLe(w, h, k / w);
      assert false;
    }
  }

  lemma {:induction false} NumberOf(r: Rect, i: int, j: int) returns (k: nat)
    requires r.Valid() && r.Has(i, j)
    ensures k < r.Area() && PixelOf(r, k) == (i, j)
    ensures k == (j - r.j1) * r.Width() + (i - r.i1)
  {
    var w, h := r.Width(), r.Height();
    var a, b := j - r.j1, i - r.i1;
    k := a * w + b;
    MulLe(w, a + 1, h);
    assert w * (a + 1) == w * a + w && w * a == a * w && w * h == h * w;
    QuotientAndRest(a, b, w);
  }

  lemma {:induction false} QuotientAndRest(a: nat, b: nat, w: nat)
    requires b < w
    ensures (a * w + b) / w == a && (a * w + b) % w == b
  {
    var k := a * w + b;
    DivMul(k, w);
    var q := k / w;
    assert w * (q + 1) == w * q + w && w * (a + 1) == w * a + w && w * a == a * w;
    if q < a {
      MulLe(w, q + 1, a);
      assert false;
    } else if q > a {
      MulLe(w, a + 1, q);
      assert false;
    }
  }

  /** A worker's result for a piece. */
  function Computed(f: Pixels, r: Rect): (data: seq<int>)
    requires r.Valid()
  {
    seq(r.Area(), k requires 0 <= k => f(PixelOf(r, k).0, PixelOf(r, k).1))
  }

  method Compute(f: Pixels, r: Rect, grid: array<int>)
    requires r.Valid() && r.Area() <= grid.Length
    modifies grid
    ensures grid[..r.Area()] == Computed(f, r)
  {
    ghost var w := r.Width();
    var k := 0;
    for j := r.j1 to r.j2 + 1
      invariant k == (j - r.j1) * w
      invariant k <= r.Area()
      invariant forall m | 0 <= m < k :: grid[m] == f(PixelOf(r, m).0, PixelOf(r, m).1)
    {
      for i := r.i1 to r.i2 + 1
        invariant k == RowStart(r, j) + (i - r.i1) && 0 <= k <= r.Area()
        invariant forall m | 0 <= m < k :: grid[m] == f(PixelOf(r, m).0, PixelOf(r, m).1)
      {
        ghost var n := NumberOf(r, i, j);
        grid[k] := f(i, j);
        k := k + 1;
      }
      assert (j + 1 - r.j1) * w == (j - r.j1) * w + w;
    }
    assert k == r.Area();
  }

  /** Where the root stores a pixel: the program multiplies the row by the image's height. */
  function Cell(i: int, j: int, height: nat): int { j * height + i }

  ghost predicate FitsImage(r: Rect, height: nat, size: nat) {
    r.Valid() && forall i, j | r.Has(i, j) :: Cell(i, j, height) < size
  }

  /** The image after the first n values of a piece have been stored. */
  function Painted(grid: seq<int>, r: Rect, height: nat, data: seq<int>, n: nat): (g: seq<int>)
    requires FitsImage(r, height, |grid|) && n <= r.Area() == |data|
    ensures |g| == |grid|
  {
    if n == 0 then grid
    else
      PixelInside(r, n - 1);
      var (i, j) := PixelOf(r, n - 1);
      CellNonNegative(i, j, height);
      Painted(grid, r, height, data, n - 1)[Cell(i, j, height) := data[n - 1]]
  }

  lemma {:induction false} CellNonNegative(i: int, j: int, height: nat)
    requires i >= 0 && j >= 0
    ensures Cell(i, j, height) >= 0
  {
  }

  /** How many values of a piece lie in front of row j. */
  function RowStart(r: Rect, j: int): int
    requires r.Valid()
  {
    (j - r.j1) * r.Width()
  }

  lemma {:induction false} RowStarts(r: Rect, j: int)
    requires r.Valid()
    ensures RowStart(r, r.j1) == 0 && RowStart(r, r.j2 + 1) == r.Area()
    ensures RowStart(r, j + 1) == RowStart(r, j) + r.Width()
  {
    assert (j + 1 - r.j1) * r.Width() == (j - r.j1) * r.Width() + r.Width();
  }

  lemma {:induction false} PaintedNext(grid: seq<int>, r: Rect, height: nat, data: seq<int>, i: int, j: int)
    requires FitsImage(r, height, |grid|) && r.Area() == |data| && r.Has(i, j)
    ensures var n := RowStart(r, j) + (i - r.i1);
      && 0 <= n < r.Area() && 0 <= Cell(i, j, height) < |grid|
      && Painted(grid, r, height, data, n + 1) == Painted(grid, r, height, data, n)[Cell(i, j, height) := data[n]]
  {
    var n := NumberOf(r, i, j);
    CellNonNegative(i, j, height);
  }

  lemma {:induction false} PaintedNone(grid: seq<int>, r: Rect, height: nat, data: seq<int>)
    requires FitsImage(r, height, |grid|) && r.Area() == |data|
    ensures Painted(grid, r, height, data, 0) == grid
    ensures r.Valid()
  {
  }

  method OutputData(data: array<int>, r: Rect, out: array<int>, height: nat)
    requires r.Valid() && FitsImage(r, height, out.Length) && r.Area() <= data.Length && data != out
    modifies out
    ensures out[..] == Painted(old(out[..]), r, height, data[..r.Area()], r.Area())
  {
    hide FitsImage, RowStart, Rect.Area, Painted;
    ghost var vals, before := data[..r.Area()], out[..];
    RowStarts(r, r.j1);
    PaintedNone(before, r, height, vals);
    var k := 0;
    for j := r.j1 to r.j2 + 1
      invariant k == RowStart(r, j) && 0 <= k <= r.Area()
      invariant out[..] == Painted(before, r, height, vals, k)
    {
      for i := r.i1 to r.i2 + 1
        invariant k == RowStart(r, j) + (i - r.i1) && 0 <= k <= r.Area()
        invariant out[..] == Painted(before, r, height, vals, k)
      {
        PaintedNext(before, r, height, vals, i, j);
        out[j * height + i] := data[k];
        k := k + 1;
      }
      RowStarts(r, j);
    }
  }

  /** A whole piece as a correct worker computes it. */
  function Paint(grid: seq<int>, r: Rect, height: nat, f: Pixels): (g: seq<int>)
    requires FitsImage(r, height, |grid|)
    ensures |g| == |grid|
  {
    Painted(grid, r, height, Computed(f, r), r.Area())
  }

  ghost predicate Stored(r: Rect, height: nat, f: Pixels, cell: int, value: int, i: int, j: int) {
    r.Has(i, j) && Cell(i, j, height) == cell && value == f(i, j)
  }

  /** A cell keeps its value when no pixel of the piece is stored there, and else holds one of those pixels. */
  lemma {:induction false} PaintedCell(grid: seq<int>, r: Rect, height: nat, f: Pixels, n: nat, cell: nat)
    requires FitsImage(r, height, |grid|) && n <= r.Area() && cell < |grid|
    ensures var g := Painted(grid, r, height, Computed(f, r), n);
      (g[cell] == grid[cell]
        && forall k | 0 <= k < n :: Cell(PixelOf(r, k).0, PixelOf(r, k).1, height) != cell)
      || exists i, j :: Stored(r, height, f, cell, g[cell], i, j)
  {
    if n > 0 {
      PaintedCell(grid, r, height, f, n - 1, cell);
      PixelInside(r, n - 1);
      var (i, j) := PixelOf(r, n - 1);
      CellNonNegative(i, j, height);
      var g := Painted(grid, r, height, Computed(f, r), n);
      if Cell(i, j, height) == cell {
        assert Stored(r, height, f, cell, g[cell], i, j);
      }
    }
  }

  lemma {:induction false} PaintCell(grid: seq<int>, r: Rect, height: nat, f: Pixels, cell: nat)
    requires FitsImage(r, height, |grid|) && cell < |grid|
    ensures var g := Paint(grid, r, height, f);
      (g[cell] == grid[cell] && forall i, j | r.Has(i, j) :: Cell(i, j, height) != cell)
      || exists i, j :: Stored(r, height, f, cell, g[cell], i, j)
  {
    PaintedCell(grid, r, height, f, r.Area(), cell);
    var g := Paint(grid, r, height, f);
    if !exists i, j :: Stored(r, height, f, cell, g[cell], i, j) {
      forall i, j | r.Has(i, j) ensures Cell(i, j, height) != cell {
        var k := NumberOf(r, i, j);
      }
    }
  }

  /** The image after pieces have arrived in some order. */
  function PaintAll(grid: seq<int>, rs: seq<Rect>, height: nat, f: Pixels): (g: seq<int>)
    requires forall r | r in rs :: FitsImage(r, height, |grid|)
    ensures |g| == |grid|
  {
    if rs == [] then grid
    else
      var n := |rs| - 1;
      assert rs[n] in rs;
      Paint(PaintAll(grid, rs[..n], height, f), rs[n], height, f)
  }

  ghost predicate Untouched(rs: seq<Rect>, height: nat, cell: nat) {
    forall r, i, j | r in rs && r.Has(i, j) :: Cell(i, j, height) != cell
  }

  ghost predicate StoredByOne(rs: seq<Rect>, height: nat, f: Pixels, cell: nat, value: int) {
    exists r, i, j :: r in rs && Stored(r, height, f, cell, value, i, j)
  }

  ghost predicate StoredBy(r: Rect, height: nat, f: Pixels, cell: nat, value: int) {
    exists i, j :: Stored(r, height, f, cell, value, i, j)
  }

  lemma {:induction false} StoredLast(rs: seq<Rect>, height: nat, f: Pixels, cell: nat, value: int)
    requires rs != []
    ensures StoredByOne(rs[..|rs| - 1], height, f, cell, value) ==> StoredByOne(rs, height, f, cell, value)
    ensures StoredBy(rs[|rs| - 1], height, f, cell, value) ==> StoredByOne(rs, height, f, cell, value)
  {
    var before, last := rs[..|rs| - 1], rs[|rs| - 1];
    assert last in rs;
    if StoredByOne(before, height, f, cell, value) {
      var r, i, j :| r in before && Stored(r, height, f, cell, value, i, j);
      assert r in rs;
    }
    if StoredBy(last, height, f, cell, value) {
      var i, j :| Stored(last, height, f, cell, value, i, j);
      assert last in rs && Stored(last, height, f, cell, value, i, j);
    }
  }

  lemma {:induction false} UntouchedLast(rs: seq<Rect>, height: nat, cell: nat)
    requires rs != [] && Untouched(rs[..|rs| - 1], height, cell)
    requires forall i, j | rs[|rs| - 1].Has(i, j) :: Cell(i, j, height) != cell
    ensures Untouched(rs, height, cell)
  {
    forall r, i, j | r in rs && r.Has(i, j) ensures Cell(i, j, height) != cell {
      assert r in rs[..|rs| - 1] || r == rs[|rs| - 1];
    }
  }

  /** Every cell of the finished image is untouched or holds the pixel of some piece's point. */
  lemma {:induction false} PaintAllCell(grid: seq<int>, rs: seq<Rect>, height: nat, f: Pixels, cell: nat)
    requires forall r | r in rs :: FitsImage(r, height, |grid|)
    requires cell < |grid|
    ensures var g := PaintAll(grid, rs, height, f);
      (g[cell] == grid[cell] && Untouched(rs, height, cell)) || StoredByOne(rs, height, f, cell, g[cell])
  {
    if rs != [] {
      hide Untouched, StoredByOne, Stored, FitsImage, Paint;
      var n := |rs| - 1;
      assert rs[n] in rs;
      var g := PaintAll(grid, rs, height, f);
      PaintAllCell(grid, rs[..n], height, f, cell);
      PaintCell(PaintAll(grid, rs[..n], height, f), rs[n], height, f, cell);
      StoredLast(rs, height, f, cell, g[cell]);
      if Untouched(rs[..n], height, cell) && (forall i, j | rs[n].Has(i, j) :: Cell(i, j, height) != cell) {
        UntouchedLast(rs, height, cell);
      }
    }
  }

  // ---- Is the picture right? ----

  function RowMajor(i: int, j: int, width: nat): int { j * width + i }

  /** The image computed pixel by pixel, in row-major order. */
  ghost predicate IsImage(g: seq<int>, f: Pixels, width: nat, height: nat) {
    forall i, j | 0 <= i < width && 0 <= j < height ::
      0 <= RowMajor(i, j, width) < |g| == width * height && g[RowMajor(i, j, width)] == f(i, j)
  }

  /** No piece is stored past the end of the image. */
  ghost predicate InBounds(width: nat, height: nat, stride: nat)
    requires width > 0 && height > 0
  {
    forall r | r in Pieces(width, height) :: FitsImage(r, stride, width * height)
  }

  /** Every order of arrival, over every earlier contents, gives the picture of every pixel function,
      when rows are stored `stride` cells apart. */
  ghost predicate AlwaysRight(width: nat, height: nat, stride: nat)
    requires width > 0 && height > 0
  {
    && InBounds(width, height, stride)
    && forall f: Pixels, grid: seq<int>, rs: seq<Rect> |
         |grid| == width * height && multiset(rs) == multiset(Pieces(width, height)) ::
         RightFor(width, height, stride, f, grid, rs)
  }

  ghost predicate RightFor(width: nat, height: nat, stride: nat, f: Pixels, grid: seq<int>, rs: seq<Rect>) {
    && (forall r | r in rs :: FitsImage(r, stride, |grid|))
    && IsImage(PaintAll(grid, rs, stride, f), f, width, height)
  }

  lemma {:induction false} SameMembers(rs: seq<Rect>, ps: seq<Rect>)
    requires multiset(rs) == multiset(ps)
    ensures forall r :: r in rs <==> r in ps
  {
    forall r ensures r in rs <==> r in ps {
      assert r in rs <==> r in multiset(rs);
      assert r in ps <==> r in multiset(ps);
    }
  }

  /** Both sides are below 20 or a multiple of 20, and the rows are stored a width apart. */
  predicate Shape(width: nat, height: nat, stride: nat) {
    && (width < 20 || width % 20 == 0) && (height < 20 || height % 20 == 0)
    && (stride == width || height == 1)
  }

  lemma {:induction false} CellIsRowMajor(width: nat, height: nat, stride: nat, i: int, j: int)
    requires stride == width || height == 1
    requires 0 <= i < width && 0 <= j < height
    ensures Cell(i, j, stride) == RowMajor(i, j, width)
    ensures 0 <= Cell(i, j, stride) < width * height
  {
    if stride == width {
      MulLe(width, j + 1, height);
      assert width * (j + 1) == width * j + width && width * j == j * width;
    } else {
      assert j == 0;
    }
  }

  lemma {:induction false} CellIsInjective(width: nat, height: nat, stride: nat, i: int, j: int, i': int, j': int)
    requires stride == width || height == 1
    requires 0 <= i < width && 0 <= j < height && 0 <= i' < width && 0 <= j' < height
    requires Cell(i, j, stride) == Cell(i', j', stride)
    ensures i == i' && j == j'
  {
    if stride == width {
      QuotientAndRest(j, i, width);
      QuotientAndRest(j', i', width);
    }
  }

  lemma {:induction false} PieceFits(width: nat, height: nat, stride: nat, r: Rect)
    requires width > 0 && height > 0 && (stride == width || height == 1)
    requires r in Pieces(width, height)
    ensures FitsImage(r, stride, width * height)
  {
    forall i, j | r.Has(i, j) ensures Cell(i, j, stride) < width * height {
      CellIsRowMajor(width, height, stride, i, j);
    }
  }

  lemma {:induction false} ShapeIsRight(width: nat, height: nat, stride: nat, f: Pixels, grid: seq<int>, rs: seq<Rect>)
    requires width > 0 && height > 0 && Shape(width, height, stride)
    requires |grid| == width * height && multiset(rs) == multiset(Pieces(width, height))
    ensures RightFor(width, height, stride, f, grid, rs)
  {
    SameMembers(rs, Pieces(width, height));
    assert Reach(width) == width && Reach(height) == height;
    forall r | r in rs ensures FitsImage(r, stride, |grid|) {
      PieceFits(width, height, stride, r);
    }
    var g := PaintAll(grid, rs, stride, f);
    forall i, j | 0 <= i < width && 0 <= j < height
      ensures 0 <= RowMajor(i, j, width) < |g| == width * height && g[RowMajor(i, j, width)] == f(i, j)
    {
      CellIsRowMajor(width, height, stride, i, j);
      var cell := Cell(i, j, stride);
      PaintAllCell(grid, rs, stride, f, cell);
      PiecesCover(width, height, i, j);
      var p :| p in Pieces(width, height) && p.Has(i, j);
      assert p in rs;
      var r', i', j' :| r' in rs && Stored(r', stride, f, cell, g[cell], i', j');
      PiecesCover(width, height, i', j');
      CellIsInjective(width, height, stride, i, j, i', j');
    }
  }

  /** Exactly when the picture always comes out right: no pixel may be missed by the pieces,
      and, unless the image is a single row, rows must be stored a width apart. */
  lemma {:induction false} RightExactlyForShape(width: nat, height: nat, stride: nat)
    requires width > 0 && height > 0
    ensures AlwaysRight(width, height, stride) <==> Shape(width, height, stride)
  {
    var ps := Pieces(width, height);
    if Shape(width, height, stride) {
      forall r | r in ps ensures FitsImage(r, stride, width * height) {
        PieceFits(width, height, stride, r);
      }
      forall f: Pixels, grid: seq<int>, rs: seq<Rect> | |grid| == width * height && multiset(rs) == multiset(ps)
        ensures RightFor(width, height, stride, f, grid, rs)
      {
        ShapeIsRight(width, height, stride, f, grid, rs);
      }
    } else {
      var grid := seq(width * height, _ => 0);
      if stride != width && height != 1 {
        // Pixel (0, 1) belongs in cell `width`, but is stored elsewhere.
        var f: Pixels := (i, j) => if i == 0 && j == 1 then 1 else 0;
        WrongRow(width, height, stride, f, grid, ps);
      } else {
        // A pixel beyond the reach of the pieces keeps its old value.
        var f: Pixels := (i, j) => 1;
        var i := if Reach(width) < width then width - 1 else 0;
        var j := if Reach(width) < width then 0 else height - 1;
        Missed(width, height, stride, f, grid, ps, i, j);
      }
    }
  }

  /** The master/worker program stores rows a height apart: only squares and single rows come out right. */
  lemma {:induction false} RowsAHeightApart(width: nat, height: nat)
    requires width > 0 && height > 0
    ensures AlwaysRight(width, height, height) <==>
      (width < 20 || width % 20 == 0) && (height < 20 || height % 20 == 0) && (width == height || height == 1)
  {
    RightExactlyForShape(width, height, height);
  }

  lemma {:induction false} WrongRow(width: nat, height: nat, stride: nat, f: Pixels, grid: seq<int>, rs: seq<Rect>)
    requires width > 0 && height > 1 && stride != width
    requires |grid| == width * height && forall c | 0 <= c < |grid| :: grid[c] == 0
    requires forall i, j :: f(i, j) == if i == 0 && j == 1 then 1 else 0
    ensures !RightFor(width, height, stride, f, grid, rs)
  {
    if forall r | r in rs :: FitsImage(r, stride, |grid|) {
      var g := PaintAll(grid, rs, stride, f);
      MulLe(width, 2, height);
      PaintAllCell(grid, rs, stride, f, width);
      assert g[width] == 0 != f(0, 1) && RowMajor(0, 1, width) == width;
    }
  }

  lemma {:induction false} Missed(width: nat, height: nat, stride: nat, f: Pixels, grid: seq<int>, rs: seq<Rect>, i: nat, j: nat)
    requires width > 0 && height > 0 && (stride == width || height == 1)
    requires i < width && j < height && (Reach(width) <= i || Reach(height) <= j)
    requires |grid| == width * height && forall c | 0 <= c < |grid| :: grid[c] == 0
    requires forall i, j :: f(i, j) == 1
    requires multiset(rs) == multiset(Pieces(width, height))
    ensures !RightFor(width, height, stride, f, grid, rs)
  {
    if forall r | r in rs :: FitsImage(r, stride, |grid|) {
      var g := PaintAll(grid, rs, stride, f);
      CellIsRowMajor(width, height, stride, i, j);
      NothingStored(width, height, stride, rs, i, j);
      PaintAllCell(grid, rs, stride, f, Cell(i, j, stride));
      assert g[RowMajor(i, j, width)] == 0 != f(i, j);
    }
  }

  lemma {:induction false} NothingStored(width: nat, height: nat, stride: nat, rs: seq<Rect>, i: nat, j: nat)
    requires width > 0 && height > 0 && (stride == width || height == 1)
    requires i < width && j < height && (Reach(width) <= i || Reach(height) <= j)
    requires multiset(rs) == multiset(Pieces(width, height))
    ensures forall r, i', j' | r in rs && r.Has(i', j') :: Cell(i', j', stride) != Cell(i, j, stride)
  {
    SameMembers(rs, Pieces(width, height));
    forall r, i', j' | r in rs && r.Has(i', j') ensures Cell(i', j', stride) != Cell(i, j, stride) {
      PiecesCover(width, height, i', j');
      if Cell(i', j', stride) == Cell(i, j, stride) {
        CellIsInjective(width, height, stride, i, j, i', j');
        assert false;
      }
    }
  }

  // ---- Do pieces overlap? ----

  predicate Overlap(r: Rect, q: Rect) {
    r.i1 <= q.i2 && q.i1 <= r.i2 && r.j1 <= q.j2 && q.j1 <= r.j2
  }

  lemma {:induction false} StripsApart(size: nat, a: nat, b: nat)
    requires size >= 20 && a < b < 20
    ensures To(size, a) < From(size, b)
  {
    MulLe(size / 20, a + 1, b);
    MulLe(size / 20, b + 1, 20);
    MulLe(size / 20, a + 1, 20);
    assert (size / 20) * (b + 1) == (size / 20) * b + size / 20;
  }

  /** Different pieces never overlap exactly when both sides have at least 20 pixels. */
  lemma {:induction false} PiecesDisjoint(width: nat, height: nat)
    requires width > 0 && height > 0
    ensures (forall k, m | 0 <= k < m < 400 :: !Overlap(Pieces(width, height)[k], Pieces(width, height)[m]))
       <==> width >= 20 && height >= 20
  {
    var ps := Pieces(width, height);
    if width >= 20 && height >= 20 {
      forall k, m | 0 <= k < m < 400 ensures !Overlap(ps[k], ps[m]) {
        if k / 20 < m / 20 {
          StripsApart(width, k / 20, m / 20);
        } else {
          StripsApart(height, k % 20, m % 20);
        }
      }
    } else if width < 20 {
      assert From(width, 18) <= width - 1 == From(width, 19);
      assert To(width, 18) == width - 1 == To(width, 19) by {
        assert Step(width) == 1;
      }
      assert ps[18 * 20] == Piece(width, height, 18 * 20) && ps[19 * 20] == Piece(width, height, 19 * 20);
      assert Overlap(ps[18 * 20], ps[19 * 20]);
    } else {
      assert To(height, 18) == height - 1 == To(height, 19) by {
        assert Step(height) == 1;
      }
      assert ps[18] == Piece(width, height, 18) && ps[19] == Piece(width, height, 19);
      assert Overlap(ps[18], ps[19]);
    }
  }

  /** No two of the pieces overlap. */
  ghost predicate Apart(ps: seq<Rect>) { forall k, m | 0 <= k < m < |ps| :: !Overlap(ps[k], ps[m]) }

  lemma {:induction false} SwappedApart(ps: seq<Rect>, a: nat, b: nat)
    requires a < |ps| && b < |ps| && Apart(ps)
    ensures Apart(Swapped(ps, a, b))
  {
    var qs := Swapped(ps, a, b);
    forall k, m | 0 <= k < m < |qs| ensures !Overlap(qs[k], qs[m]) {
      var x, y := if k == a then b else if k == b then a else k, if m == a then b else if m == b then a else m;
      assert qs[k] == ps[x] && qs[m] == ps[y];
      assert x < y ==> !Overlap(ps[x], ps[y]);
      assert y < x ==> !Overlap(ps[y], ps[x]);
    }
  }

  lemma {:induction false} ShuffledApart(ps: seq<Rect>, draws: seq<(nat, nat)>)
    requires forall d | d in draws :: d.0 < |ps| && d.1 < |ps|
    ensures Apart(Shuffled(ps, draws)) <==> Apart(ps)
  {
    if draws != [] {
      var n := |draws| - 1;
      assert draws[n] in draws;
      var before := Shuffled(ps, draws[..n]);
      var (a, b) := draws[n];
      ShuffledApart(ps, draws[..n]);
      assert Swapped(Swapped(before, a, b), a, b) == before;
      if Apart(before) {
        SwappedApart(before, a, b);
      }
      if Apart(Swapped(before, a, b)) {
        SwappedApart(Swapped(before, a, b), a, b);
      }
    }
  }
}
