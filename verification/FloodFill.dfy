/** Finding the tile in the icon artwork: a stack-based fill from the border,
    the bounding box of what it did not reach, and the square crop around it. */
module FloodFill {
  import opened Common
  import opened GraphFill

  const FRAME_ALPHA: int := 200

  // ---- pixels and paths ----

  /** RGBA bytes, row by row. */
  datatype Image = Image(W: nat, H: nat, data: seq<int>)
  {
    ghost predicate Valid() { |data| == Size() * 4 }

    function Size(): nat { W * H }

    function X(i: nat): int { if W == 0 then 0 else i % W }

    function Y(i: nat): int { if W == 0 then 0 else i / W }

    function At(x: int, y: int): int { y * W + x }

    predicate On(x: int, y: int) { 0 <= x < W && 0 <= y < H }

    predicate Open(i: int)
      requires Valid()
    {
      0 <= i < Size() && data[i * 4 + 3] < FRAME_ALPHA
    }

    predicate Border(i: nat) { OnEdge(X(i), Y(i)) }

    predicate OnEdge(x: int, y: int) { x == 0 || x == W - 1 || y == 0 || y == H - 1 }

    ghost predicate Adjacent(i: nat, j: nat) { Abs(X(i) - X(j)) + Abs(Y(i) - Y(j)) == 1 }
  }

  ghost function Abs(n: int): int { if n < 0 then -n else n }

  /** A 4-connected walk over open pixels from the border to i. */
  ghost predicate PathTo(img: Image, path: seq<int>, i: int)
    requires img.Valid()
  {
    && |path| > 0 && path[|path| - 1] == i
    && (forall k :: 0 <= k < |path| ==> 0 <= path[k] < img.W * img.H && img.data[path[k] * 4 + 3] < 200)
    && (img.X(path[0]) == 0 || img.X(path[0]) == img.W - 1 || img.Y(path[0]) == 0 || img.Y(path[0]) == img.H - 1)
    && (forall k :: 0 < k < |path| ==> img.Adjacent(path[k - 1], path[k]))
  }

  ghost predicate Reachable(img: Image, i: int)
    requires img.Valid()
  {
    exists path :: PathTo(img, path, i)
  }

  // ---- coordinates ----

  lemma Coordinates(img: Image, i: nat)
    requires i < img.Size()
    ensures img.On(img.X(i), img.Y(i)) && img.At(img.X(i), img.Y(i)) == i
  {
  }

  lemma Index(img: Image, x: int, y: int)
    requires img.On(x, y)
    ensures 0 <= img.At(x, y) < img.Size() && img.X(img.At(x, y)) == x && img.Y(img.At(x, y)) == y
  {
    Scale(y + 1, img.H, img.W);
    Scale(0, y, img.W);
    assert (y + 1) * img.W == y * img.W + img.W;
    Division(img.W, x, y);
  }

  lemma Division(w: nat, x: int, y: int)
    requires 0 <= x < w && 0 <= y
    ensures (y * w + x) / w == y && (y * w + x) % w == x
  {
    var q, r := (y * w + x) / w, (y * w + x) % w;
    assert y * w + x == q * w + r;
    assert (q - y) * w == q * w - y * w;
    Scale(q - y, -1, w);
    Scale(1, q - y, w);
  }

  // ---- the image as a graph ----

  /** The pixel at (x, y), or -1 off the image. */
  function Pixel(img: Image, x: int, y: int): int {
    if img.On(x, y) then img.At(x, y) else -1
  }

  function Near(img: Image, i: nat): seq<int> {
    var x, y := img.X(i), img.Y(i);
    [Pixel(img, x + 1, y), Pixel(img, x - 1, y), Pixel(img, x, y + 1), Pixel(img, x, y - 1)]
  }

  function Grid(img: Image): (g: Graph)
    requires img.Valid()
    ensures g.Valid()
  {
    Graph((set i | 0 <= i < img.Size() && img.Open(i)),
          (set i | 0 <= i < img.Size() && img.Border(i)),
          map i | 0 <= i < img.Size() :: Near(img, i))
  }

  lemma NearIsAdjacent(img: Image, i: nat, j: nat)
    requires i < img.Size() && j < img.Size()
    ensures j in Near(img, i) <==> img.Adjacent(i, j)
  {
    Coordinates(img, i);
    Coordinates(img, j);
    var x, y := img.X(i), img.Y(i);
    PixelIs(img, j, x + 1, y);
    PixelIs(img, j, x - 1, y);
    PixelIs(img, j, x, y + 1);
    PixelIs(img, j, x, y - 1);
  }

  lemma PixelIs(img: Image, j: nat, x: int, y: int)
    requires j < img.Size()
    ensures Pixel(img, x, y) == j <==> img.X(j) == x && img.Y(j) == y
  {
    Coordinates(img, j);
    if img.On(x, y) {
      Index(img, x, y);
    }
  }

  lemma WalksAreTheSame(img: Image, path: seq<int>, i: int)
    requires img.Valid()
    ensures Walk(Grid(img), path, i) <==> PathTo(img, path, i)
  {
    var g := Grid(img);
    forall k | 0 < k < |path| && img.Open(path[k - 1]) && img.Open(path[k])
      ensures path[k] in g.next[path[k - 1]] <==> img.Adjacent(path[k - 1], path[k])
    {
      NearIsAdjacent(img, path[k - 1], path[k]);
    }
  }

  lemma ReachedIsReachable(img: Image, i: int)
    requires img.Valid()
    ensures i in Reached(Grid(img)) <==> Reachable(img, i)
  {
    if i in Reached(Grid(img)) {
      var path :| Walk(Grid(img), path, i);
      WalksAreTheSame(img, path, i);
    }
    if Reachable(img, i) {
      var path :| PathTo(img, path, i);
      WalksAreTheSame(img, path, i);
    }
  }

  // ---- the seeds ----

  function RowSeeds(img: Image, n: nat): seq<int> {
    if n == 0 then [] else RowSeeds(img, n - 1) + [Pixel(img, n - 1, 0), Pixel(img, n - 1, img.H - 1)]
  }

  function ColumnSeeds(img: Image, n: nat): seq<int> {
    if n == 0 then RowSeeds(img, img.W)
    else ColumnSeeds(img, n - 1) + [Pixel(img, 0, n - 1), Pixel(img, img.W - 1, n - 1)]
  }

  lemma {:induction false} RowSeedIs(img: Image, n: nat, i: nat)
    requires i < img.Size()
    ensures i in RowSeeds(img, n) <==> img.X(i) < n && (img.Y(i) == 0 || img.Y(i) == img.H - 1)
  {
    Coordinates(img, i);
    if n > 0 {
      RowSeedIs(img, n - 1, i);
      PixelIs(img, i, n - 1, 0);
      PixelIs(img, i, n - 1, img.H - 1);
    }
  }

  lemma {:induction false} ColumnSeedIs(img: Image, n: nat, i: nat)
    requires i < img.Size()
    ensures i in ColumnSeeds(img, n)
      <==> i in RowSeeds(img, img.W) || (img.Y(i) < n && (img.X(i) == 0 || img.X(i) == img.W - 1))
  {
    Coordinates(img, i);
    if n > 0 {
      ColumnSeedIs(img, n - 1, i);
      PixelIs(img, i, 0, n - 1);
      PixelIs(img, i, img.W - 1, n - 1);
    }
  }

  /** The two loops over the edges offer the whole border and nothing but the
      border. */
  lemma SeedsAreTheBorder(img: Image, i: nat)
    requires i < img.Size()
    ensures i in ColumnSeeds(img, img.H) <==> img.Border(i)
  {
    RowSeedIs(img, img.W, i);
    ColumnSeedIs(img, img.H, i);
    Coordinates(img, i);
  }

  lemma Seeded(img: Image)
    requires img.Valid()
    ensures Filling(Grid(img), MarkAll(Grid(img), BLANK, ColumnSeeds(img, img.H)))
  {
    var g, seeds := Grid(img), ColumnSeeds(img, img.H);
    forall i | i in g.open
      ensures i in ToSet(seeds) <==> i in g.border
    {
      SeedsAreTheBorder(img, i);
    }
    SeededIsFilling(g, seeds);
  }

  // ---- the fill as the script runs it ----

  class Filler {
    const img: Image
    const outside: array<bool>
    var stack: seq<int>
    ghost var pushed: seq<int>

    ghost predicate Ready() {
      img.Valid() && outside.Length == img.Size()
    }

    ghost function F(): Fill
      reads this, outside
    {
      Fill((set i | 0 <= i < outside.Length && outside[i]), stack, pushed)
    }

    constructor (image: Image)
      requires image.Valid()
      ensures img == image && Ready() && fresh(outside) && F() == BLANK
    {
      img, stack, pushed := image, [], [];
      outside := new bool[image.Size()](_ => false);
    }

    method Push(x: int, y: int)
      requires Ready()
      modifies this`stack, this`pushed, outside
      ensures F() == Mark(Grid(img), old(F()), Pixel(img, x, y))
    {
      if x < 0 || y < 0 || x >= img.W || y >= img.H {
        return;
      }
      Index(img, x, y);
      var i := y * img.W + x;
      if outside[i] || img.data[i * 4 + 3] >= FRAME_ALPHA {
        return;
      }
      outside[i] := true;
      stack := stack + [i];
      pushed := pushed + [i];
      assert F().marked == old(F()).marked + {i};
    }

    method SeedBorder()
      requires Ready() && F() == BLANK
      modifies this`stack, this`pushed, outside
      ensures Filling(Grid(img), F())
    {
      ghost var g := Grid(img);
      for x := 0 to img.W
        invariant F() == MarkAll(g, BLANK, RowSeeds(img, x))
      {
        MarkTwo(g, BLANK, RowSeeds(img, x), Pixel(img, x, 0), Pixel(img, x, img.H - 1));
        Push(x, 0);
        Push(x, img.H - 1);
      }
      for y := 0 to img.H
        invariant F() == MarkAll(g, BLANK, ColumnSeeds(img, y))
      {
        MarkTwo(g, BLANK, ColumnSeeds(img, y), Pixel(img, 0, y), Pixel(img, img.W - 1, y));
        Push(0, y);
        Push(img.W - 1, y);
      }
      Seeded(img);
    }

    /** The four pushes around a pixel. */
    method PushAround(i: nat)
      requires Ready() && i < img.Size()
      modifies this`stack, this`pushed, outside
      ensures F() == MarkAll(Grid(img), old(F()), Near(img, i))
    {
      Coordinates(img, i);
      var x := i % img.W;
      var y := i / img.W;
      MarkFour(Grid(img), F(), Pixel(img, x + 1, y), Pixel(img, x - 1, y), Pixel(img, x, y + 1), Pixel(img, x, y - 1));
      Push(x + 1, y);
      Push(x - 1, y);
      Push(x, y + 1);
      Push(x, y - 1);
    }

    /** stack.pop() and what follows it. */
    method PopAndSpread()
      requires Ready() && stack != [] && 0 <= stack[|stack| - 1] < img.Size()
      modifies this`stack, this`pushed, outside
      ensures F() == Spread(Grid(img), old(F()))
    {
      var i := stack[|stack| - 1];
      stack := stack[..|stack| - 1];
      assert F() == Pop(old(F()));
      PushAround(i);
    }

    /** A pixel ends up outside exactly when a path of non-frame pixels joins it
        to the border; the pixels pushed are those, each pushed once. */
    method Run()
      requires Ready() && F() == BLANK
      modifies this`stack, this`pushed, outside
      ensures forall i :: 0 <= i < img.Size() ==> (outside[i] <==> Reachable(img, i))
      ensures forall i :: i in pushed <==> Reachable(img, i)
      ensures forall j, k :: 0 <= j < k < |pushed| ==> pushed[j] != pushed[k]
    {
      SeedBorder();
      while stack != []
        invariant Filling(Grid(img), F())
        decreases Left(Grid(img), F())
      {
        SpreadStep(Grid(img), F());
        PopAndSpread();
      }
      Settled(img, F());
      assert forall i :: 0 <= i < img.Size() ==> (outside[i] <==> i in F().marked);
    }
  }

  lemma Settled(img: Image, f: Fill)
    requires img.Valid() && Filling(Grid(img), f) && f.stack == []
    ensures forall i :: i in f.marked <==> Reachable(img, i)
    ensures forall i :: i in f.pushed <==> Reachable(img, i)
    ensures forall j, k :: 0 <= j < k < |f.pushed| ==> f.pushed[j] != f.pushed[k]
  {
    RestIsExact(Grid(img), f);
    forall i
      ensures i in f.marked <==> Reachable(img, i)
      ensures i in f.pushed <==> i in f.marked
    {
      ReachedIsReachable(img, i);
      assert i in f.pushed <==> i in ToSet(f.pushed);
    }
  }

  // ---- the bounding box ----

  datatype Box = Box(left: int, right: int, top: int, bottom: int, inside: nat)

  datatype Point = Point(x: int, y: int)

  predicate IsInside(img: Image, outside: seq<bool>, x: int, y: int)
    requires |outside| == img.Size()
  {
    img.On(x, y) && (Index(img, x, y); !outside[img.At(x, y)])
  }

  /** The inside pixels the scan has passed when it is at (x, y). */
  ghost function Passed(img: Image, outside: seq<bool>, x: int, y: int): set<Point>
    requires |outside| == img.Size()
  {
    set a, b | 0 <= a < img.W && 0 <= b < img.H && (b < y || (b == y && a < x)) && IsInside(img, outside, a, b) ::
      Point(a, b)
  }

  /** All that the fill left: the tile. */
  ghost function Tile(img: Image, outside: seq<bool>): set<Point>
    requires |outside| == img.Size()
  {
    Passed(img, outside, 0, img.H)
  }

  /** The box holds every point and touches one on each of its four sides. */
  ghost predicate Bounds(img: Image, tile: set<Point>, b: Box) {
    && b.inside == |tile|
    && (forall p :: p in tile ==> b.left <= p.x <= b.right && b.top <= p.y <= b.bottom)
    && (tile != {} ==>
          && (exists p :: p in tile && p.x == b.left) && (exists p :: p in tile && p.x == b.right)
          && (exists p :: p in tile && p.y == b.top) && (exists p :: p in tile && p.y == b.bottom))
    && (tile == {} ==> b == Box(img.W, 0, img.H, 0, 0))
  }

  function Widen(b: Box, x: int, y: int): Box {
    Box(if x < b.left then x else b.left, if x > b.right then x else b.right,
        if y < b.top then y else b.top, if y > b.bottom then y else b.bottom, b.inside + 1)
  }

  lemma BoundsStep(img: Image, tile: set<Point>, p: Point, b: Box)
    requires img.On(p.x, p.y) && p !in tile
    ensures Bounds(img, tile, b) ==> Bounds(img, tile + {p}, Widen(b, p.x, p.y))
  {
  }

  lemma PassedStep(img: Image, outside: seq<bool>, x: int, y: int)
    requires |outside| == img.Size() && img.On(x, y)
    ensures Point(x, y) !in Passed(img, outside, x, y)
    ensures Passed(img, outside, x + 1, y)
      == Passed(img, outside, x, y) + if IsInside(img, outside, x, y) then {Point(x, y)} else {}
  {
  }

  method ScanPixel(img: Image, outside: seq<bool>, x: int, y: int, before: Box) returns (b: Box)
    requires |outside| == img.Size() && img.On(x, y)
    ensures Bounds(img, Passed(img, outside, x, y), before) ==> Bounds(img, Passed(img, outside, x + 1, y), b)
  {
    b := before;
    Index(img, x, y);
    PassedStep(img, outside, x, y);
    if !outside[y * img.W + x] {
      BoundsStep(img, Passed(img, outside, x, y), Point(x, y), b);
      b := Widen(b, x, y);
    }
  }

  method ScanRow(img: Image, outside: seq<bool>, y: nat, before: Box) returns (b: Box)
    requires |outside| == img.Size() && y < img.H
    ensures Bounds(img, Passed(img, outside, 0, y), before) ==> Bounds(img, Passed(img, outside, 0, y + 1), b)
  {
    b := before;
    for x := 0 to img.W
      invariant Bounds(img, Passed(img, outside, 0, y), before) ==> Bounds(img, Passed(img, outside, x, y), b)
    {
      b := ScanPixel(img, outside, x, y, b);
    }
    NextRow(img, outside, y);
  }

  /** The scan with its running minima and maxima. */
  method BoundingBox(img: Image, outside: seq<bool>) returns (b: Box)
    requires |outside| == img.Size()
    ensures Bounds(img, Tile(img, outside), b)
  {
    b := Box(img.W, 0, img.H, 0, 0);
    for y := 0 to img.H
      invariant Bounds(img, Passed(img, outside, 0, y), b)
    {
      b := ScanRow(img, outside, y, b);
    }
  }

  lemma NextRow(img: Image, outside: seq<bool>, y: int)
    requires |outside| == img.Size()
    ensures Passed(img, outside, img.W, y) == Passed(img, outside, 0, y + 1)
  {
  }

  // ---- the crop ----

  datatype Crop = Crop(
    side: int, extLeft: int, extTop: int, extRight: int, extBottom: int, atX: int, atY: int)

  /** Math.round of half an integer rounds up. */
  function HalfUp(twice: int): int { (twice + 1) / 2 }

  function SquareCrop(W: nat, H: nat, b: Box, glow: nat): Crop {
    var side := Max(b.right - b.left, b.bottom - b.top) + 1 + glow * 2;
    var x0 := HalfUp(b.left + b.right) - side / 2;
    var y0 := HalfUp(b.top + b.bottom) - side / 2;
    var extLeft, extTop := Max(0, -x0), Max(0, -y0);
    Crop(side, extLeft, extTop, Max(0, x0 + side - W), Max(0, y0 + side - H), x0 + extLeft, y0 + extTop)
  }

  /** The margins on the two sides of a stretch differ by at most one. */
  predicate Centred(start: int, side: int, lo: int, hi: int) {
    -1 <= (lo - start) - (start + side - 1 - hi) <= 1
  }

  /** Whatever glow is left around the tile, the extracted square lies inside
      the extended canvas and holds the whole tile with that margin; it is no
      larger than that takes, the tile is in its middle, and the canvas is extended
      no further than it reaches. */
  lemma CropHoldsTheTile(img: Image, tile: set<Point>, b: Box, glow: nat, p: Point)
    requires Bounds(img, tile, b) && p in tile
    ensures var c := SquareCrop(img.W, img.H, b, glow);
      && 0 <= c.atX && c.atX + c.side <= c.extLeft + img.W + c.extRight
      && 0 <= c.atY && c.atY + c.side <= c.extTop + img.H + c.extBottom
      && c.atX + glow <= c.extLeft + p.x && c.extLeft + p.x + glow < c.atX + c.side
      && c.atY + glow <= c.extTop + p.y && c.extTop + p.y + glow < c.atY + c.side
      && c.side == Max(b.right - b.left, b.bottom - b.top) + 1 + 2 * glow
      && Centred(c.atX - c.extLeft, c.side, b.left, b.right) && Centred(c.atY - c.extTop, c.side, b.top, b.bottom)
      && c.extLeft >= 0 && (c.extLeft > 0 ==> c.atX == 0)
      && c.extTop >= 0 && (c.extTop > 0 ==> c.atY == 0)
      && c.extRight >= 0 && (c.extRight > 0 ==> c.atX + c.side == c.extLeft + img.W + c.extRight)
      && c.extBottom >= 0 && (c.extBottom > 0 ==> c.atY + c.side == c.extTop + img.H + c.extBottom)
  {
  }
}
