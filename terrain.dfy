/**
 The world generators: each one builds the list of (kind, position)
 placements of one part of the initial world — the base layer with its
 walls, hills, trees and clouds. The game draws sizes, centres and kinds at
 random; here every drawn value is a parameter, so each generator is a
 deterministic function of its draws.
 */
module Terrain {
  import opened Blocks
  import opened Geometry
  import opened WorldStore

  /** The number of integers in the range c - s .. c + s: 2s + 1, or none when s is negative. */
  function Span(s: int): (n: nat)
    ensures s >= 0 ==> n == 2 * s + 1
  {
    if s < 0 then 0 else 2 * s + 1
  }

  /** How many placements of `ps` place kind `b`. */
  function CountOf(ps: seq<Placement>, b: Block): nat
  {
    if ps == [] then 0 else CountOf(ps[..|ps| - 1], b) + (if ps[|ps| - 1].0 == b then 1 else 0)
  }

  /** Counts of two parts add up to the count of their concatenation. */
  lemma CountOfSum(a: seq<Placement>, c: seq<Placement>, b: Block, x: int, y: int)
    requires CountOf(a, b) == x && CountOf(c, b) == y
    ensures CountOf(a + c, b) == x + y
  {
    CountOfAppend(a, c, b);
  }

  lemma {:induction false} CountOfAppend(a: seq<Placement>, c: seq<Placement>, b: Block)
    ensures CountOf(a + c, b) == CountOf(a, b) + CountOf(c, b)
    decreases |c|
  {
    if c == [] {
      assert a + c == a;
    } else {
      var c' := c[..|c| - 1];
      assert (a + c)[..|a + c| - 1] == a + c';
      CountOfAppend(a, c', b);
    }
  }

  /** n copies of k added up. */
  function Rep(n: nat, k: int): int
  {
    if n == 0 then 0 else Rep(n - 1, k) + k
  }

  lemma {:induction false} RepIsProduct(n: nat, k: int)
    ensures Rep(n, k) == n * k
  {
    if n > 0 {
      RepIsProduct(n - 1, k);
      assert (n - 1) * k + k == n * k;
    }
  }

  // ---------------------------------------------------------------- base layer

  /** (x, z) lies on the outer edge of the square of half-width `w`. */
  predicate OnPerimeter(w: int, x: int, z: int)
  {
    x == -w || x == w || z == -w || z == w
  }

  /** The first `n` blocks of the wall over (x, z), from y = -2 upwards. */
  function Wall(stone: Block, x: int, z: int, n: nat): (r: seq<Placement>)
    ensures |r| == n
  {
    seq(n, i => (stone, (x, -2 + i, z)))
  }

  /**
   The placements of one (x, z) column of the base layer: `grass` at y = -2
   over `stone` at y = -3 and, on the perimeter, a wall of five `stone`
   blocks from y = -2 to y = 2. (The layer's two kinds are parameters so
   that its shape is stated once for any two kinds.)
   */
  function BaseColumn(grass: Block, stone: Block, w: int, x: int, z: int): seq<Placement>
  {
    [(grass, (x, -2, z)), (stone, (x, -3, z))] + (if OnPerimeter(w, x, z) then Wall(stone, x, z, 5) else [])
  }

  /** The columns z = -w .. -w + n - 1 of row x. */
  function BaseRow(grass: Block, stone: Block, w: int, x: int, n: nat): seq<Placement>
  {
    if n == 0 then [] else BaseRow(grass, stone, w, x, n - 1) + BaseColumn(grass, stone, w, x, -w + n - 1)
  }

  /** The rows x = -w .. -w + n - 1, each of the columns z = -w .. -w + cols - 1. */
  function BaseRows(grass: Block, stone: Block, w: int, cols: nat, n: nat): seq<Placement>
  {
    if n == 0 then [] else BaseRows(grass, stone, w, cols, n - 1) + BaseRow(grass, stone, w, -w + n - 1, cols)
  }

  /** The base layer of a world of half-width `w`: grass over stone, walled with stone. */
  function BaseLayer(w: int): seq<Placement>
  {
    BaseRows(GRASS, STONE, w, Span(w), Span(w))
  }

  /** The first m columns of a row are a start of its first n columns. */
  lemma {:induction false} BaseRowPrefix(grass: Block, stone: Block, w: int, x: int, m: nat, n: nat)
    requires m <= n
    ensures BaseRow(grass, stone, w, x, m) <= BaseRow(grass, stone, w, x, n)
  {
    if m < n {
      BaseRowPrefix(grass, stone, w, x, m, n - 1);
    }
  }

  /** The first m rows are a start of the first n rows. */
  lemma {:induction false} BaseRowsPrefix(grass: Block, stone: Block, w: int, cols: nat, m: nat, n: nat)
    requires m <= n
    ensures BaseRows(grass, stone, w, cols, m) <= BaseRows(grass, stone, w, cols, n)
  {
    if m < n {
      BaseRowsPrefix(grass, stone, w, cols, m, n - 1);
    }
  }

  /** Builds the base layer by appending column after column, row after row. */
  method GenerateBaseLayer() returns (blockList: seq<Placement>)
    ensures blockList == BaseLayer(WORLD_SIZE)
  {
    blockList := [];
    var x := -WORLD_SIZE;
    while x < WORLD_SIZE + 1
      invariant -WORLD_SIZE <= x <= WORLD_SIZE + 1
      invariant blockList == BaseRows(GRASS, STONE, WORLD_SIZE, Span(WORLD_SIZE), x + WORLD_SIZE)
    {
      blockList := AppendRow(blockList, x);
      x := x + 1;
    }
  }

  /** One pass of the base layer's outer loop: row x appended to `blockList`. */
  method AppendRow(blockList: seq<Placement>, x: int) returns (r: seq<Placement>)
    ensures r == blockList + BaseRow(GRASS, STONE, WORLD_SIZE, x, Span(WORLD_SIZE))
  {
    r := blockList;
    var z := -WORLD_SIZE;
    while z < WORLD_SIZE + 1
      invariant -WORLD_SIZE <= z <= WORLD_SIZE + 1
      invariant r == blockList + BaseRow(GRASS, STONE, WORLD_SIZE, x, z + WORLD_SIZE)
    {
      r := AppendColumn(r, x, z);
      z := z + 1;
    }
  }

  /** One pass of the loop in `AppendRow`: column (x, z) appended to `blockList`. */
  method AppendColumn(blockList: seq<Placement>, x: int, z: int) returns (r: seq<Placement>)
    ensures r == blockList + BaseColumn(GRASS, STONE, WORLD_SIZE, x, z)
  {
    var y := 0;
    r := blockList + [(GRASS, (x, y - 2, z))];
    r := r + [(STONE, (x, y - 3, z))];
    if x == -WORLD_SIZE || x == WORLD_SIZE || z == -WORLD_SIZE || z == WORLD_SIZE {
      ghost var floor := r;
      var dy := -2;
      while dy < 3
        invariant -2 <= dy <= 3
        invariant r == floor + Wall(STONE, x, z, dy + 2)
      {
        assert Wall(STONE, x, z, dy + 3) == Wall(STONE, x, z, dy + 2) + [(STONE, (x, y + dy, z))];
        r := r + [(STONE, (x, y + dy, z))];
        dy := dy + 1;
      }
    }
  }

  lemma {:induction false} WallMembers(stone: Block, x: int, z: int, n: nat, e: Placement)
    ensures e in Wall(stone, x, z, n) <==> e.0 == stone && e.1.0 == x && e.1.2 == z && -2 <= e.1.1 < -2 + n
  {
    if e.0 == stone && e.1.0 == x && e.1.2 == z && -2 <= e.1.1 < -2 + n {
      assert Wall(stone, x, z, n)[e.1.1 + 2] == e;
    }
  }

  /** What column (x, z) holds: its floor, and on the perimeter its wall. */
  lemma ColumnMembers(grass: Block, stone: Block, w: int, x: int, z: int, e: Placement)
    ensures e in BaseColumn(grass, stone, w, x, z) <==>
      (e.1.0 == x && e.1.2 == z &&
       (e == (grass, (x, -2, z)) || e == (stone, (x, -3, z)) ||
        (OnPerimeter(w, x, z) && e.0 == stone && -2 <= e.1.1 <= 2)))
  {
    WallMembers(stone, x, z, 5, e);
  }

  /** Every placement of column (x, z) is at x and z. */
  lemma ColumnAt(grass: Block, stone: Block, w: int, x: int, z: int, e: Placement)
    requires e in BaseColumn(grass, stone, w, x, z)
    ensures e.1.0 == x && e.1.2 == z
  {
    ColumnMembers(grass, stone, w, x, z, e);
  }

  lemma {:induction false} RowMembers(grass: Block, stone: Block, w: int, x: int, n: nat, e: Placement)
    ensures e in BaseRow(grass, stone, w, x, n) <==>
      -w <= e.1.2 < -w + n && e in BaseColumn(grass, stone, w, x, e.1.2)
  {
    if n > 0 {
      var z := -w + n - 1;
      assert BaseRow(grass, stone, w, x, n) == BaseRow(grass, stone, w, x, n - 1) + BaseColumn(grass, stone, w, x, z);
      RowMembers(grass, stone, w, x, n - 1, e);
      if e in BaseColumn(grass, stone, w, x, z) {
        ColumnAt(grass, stone, w, x, z, e);
      }
    }
  }

  lemma {:induction false} RowsMembers(grass: Block, stone: Block, w: int, cols: nat, n: nat, e: Placement)
    ensures e in BaseRows(grass, stone, w, cols, n) <==>
      -w <= e.1.0 < -w + n && -w <= e.1.2 < -w + cols && e in BaseColumn(grass, stone, w, e.1.0, e.1.2)
  {
    if n > 0 {
      var x := -w + n - 1;
      assert BaseRows(grass, stone, w, cols, n) == BaseRows(grass, stone, w, cols, n - 1) + BaseRow(grass, stone, w, x, cols);
      RowsMembers(grass, stone, w, cols, n - 1, e);
      RowMembers(grass, stone, w, x, cols, e);
      if e in BaseColumn(grass, stone, w, e.1.0, e.1.2) {
        ColumnAt(grass, stone, w, e.1.0, e.1.2, e);
      }
      if e in BaseRow(grass, stone, w, x, cols) {
        ColumnAt(grass, stone, w, x, e.1.2, e);
      }
    }
  }

  /**
   The base layer holds grass at y = -2 over every (x, z) with |x|, |z| <= w
   and nothing else of grass; stone at y = -3 under every such (x, z) and,
   on the perimeter, from y = -2 to y = 2; and no other kind.
   */
  lemma BaseLayerMembers(w: int, b: Block, p: Pos)
    ensures (b, p) in BaseLayer(w) ==> b == GRASS || b == STONE
    ensures (GRASS, p) in BaseLayer(w) <==> -w <= p.0 <= w && -w <= p.2 <= w && p.1 == -2
    ensures (STONE, p) in BaseLayer(w) <==>
      (-w <= p.0 <= w && -w <= p.2 <= w && (p.1 == -3 || (OnPerimeter(w, p.0, p.2) && -2 <= p.1 <= 2)))
  {
    KindsDistinct();
    RowsMembers(GRASS, STONE, w, Span(w), Span(w), (b, p));
    RowsMembers(GRASS, STONE, w, Span(w), Span(w), (GRASS, p));
    RowsMembers(GRASS, STONE, w, Span(w), Span(w), (STONE, p));
    ColumnMembers(GRASS, STONE, w, p.0, p.2, (b, p));
    ColumnMembers(GRASS, STONE, w, p.0, p.2, (GRASS, p));
    ColumnMembers(GRASS, STONE, w, p.0, p.2, (STONE, p));
  }

  lemma {:induction false} WallCount(grass: Block, stone: Block, x: int, z: int, n: nat)
    requires grass != stone
    ensures CountOf(Wall(stone, x, z, n), stone) == n && CountOf(Wall(stone, x, z, n), grass) == 0
  {
    if n > 0 {
      assert Wall(stone, x, z, n)[..n - 1] == Wall(stone, x, z, n - 1);
      WallCount(grass, stone, x, z, n - 1);
    }
  }

  lemma ColumnCount(grass: Block, stone: Block, w: int, x: int, z: int)
    requires grass != stone
    ensures CountOf(BaseColumn(grass, stone, w, x, z), grass) == 1
    ensures CountOf(BaseColumn(grass, stone, w, x, z), stone) == if OnPerimeter(w, x, z) then 6 else 1
  {
    var floor: seq<Placement> := [(grass, (x, -2, z)), (stone, (x, -3, z))];
    assert floor[..1] == [(grass, (x, -2, z))] && floor[..1][..0] == [];
    assert CountOf(floor[..1], grass) == 1 && CountOf(floor[..1], stone) == 0;
    var wall := if OnPerimeter(w, x, z) then Wall(stone, x, z, 5) else [];
    WallCount(grass, stone, x, z, 5);
    CountOfAppend(floor, wall, grass);
    CountOfAppend(floor, wall, stone);
  }

  /** A row of n columns holds n grass placements. */
  lemma {:induction false} RowGrassCount(grass: Block, stone: Block, w: int, x: int, n: nat)
    requires grass != stone
    ensures CountOf(BaseRow(grass, stone, w, x, n), grass) == n
  {
    if n > 0 {
      var a, c := BaseRow(grass, stone, w, x, n - 1), BaseColumn(grass, stone, w, x, -w + n - 1);
      RowGrassCount(grass, stone, w, x, n - 1);
      ColumnCount(grass, stone, w, x, -w + n - 1);
      CountOfAppend(a, c, grass);
    }
  }

  /**
   A row of an edge x holds six stones per column; any other row, when w >= 1,
   holds one stone per column and five more in each of the two edge columns.
   */
  function RowStones(w: int, x: int, n: nat): int
  {
    if x == -w || x == w then 6 * n
    else n + (if n >= 1 then 5 else 0) + (if n == 2 * w + 1 then 5 else 0)
  }

  /** The first `n` columns of row `x` hold `RowStones(w, x, n)` stones. */
  lemma {:induction false} RowStoneCount(grass: Block, stone: Block, w: int, x: int, n: nat)
    requires grass != stone
    requires w >= 1 && n <= 2 * w + 1
    ensures CountOf(BaseRow(grass, stone, w, x, n), stone) == RowStones(w, x, n)
  {
    if n > 0 {
      var a, c := BaseRow(grass, stone, w, x, n - 1), BaseColumn(grass, stone, w, x, -w + n - 1);
      RowStoneCount(grass, stone, w, x, n - 1);
      ColumnCount(grass, stone, w, x, -w + n - 1);
      CountOfAppend(a, c, stone);
    }
  }

  lemma {:induction false} RowsGrassCount(grass: Block, stone: Block, w: int, cols: nat, n: nat)
    requires grass != stone
    ensures CountOf(BaseRows(grass, stone, w, cols, n), grass) == Rep(n, cols)
  {
    if n > 0 {
      var a, c := BaseRows(grass, stone, w, cols, n - 1), BaseRow(grass, stone, w, -w + n - 1, cols);
      RowsGrassCount(grass, stone, w, cols, n - 1);
      RowGrassCount(grass, stone, w, -w + n - 1, cols);
      CountOfSum(a, c, grass, Rep(n - 1, cols), cols);
    }
  }

  /** The first `n` rows of `cols` columns hold `RowsStones(w, cols, n)` stones. */
  lemma {:induction false} RowsStoneCount(grass: Block, stone: Block, w: int, cols: nat, n: nat)
    requires grass != stone
    requires w >= 1 && cols <= 2 * w + 1
    ensures CountOf(BaseRows(grass, stone, w, cols, n), stone) == RowsStones(w, cols, n)
  {
    if n > 0 {
      var a, c := BaseRows(grass, stone, w, cols, n - 1), BaseRow(grass, stone, w, -w + n - 1, cols);
      RowsStoneCount(grass, stone, w, cols, n - 1);
      RowStoneCount(grass, stone, w, -w + n - 1, cols);
      CountOfSum(a, c, stone, RowsStones(w, cols, n - 1), RowStones(w, -w + n - 1, cols));
    }
  }

  /** The stones of the first `n` rows of `cols` columns, row by row. */
  function RowsStones(w: int, cols: nat, n: nat): int
  {
    if n == 0 then 0 else RowsStones(w, cols, n - 1) + RowStones(w, -w + n - 1, cols)
  }

  /**
   The two edge rows hold six stones per column and every row between them
   2w + 11, so the first `n` rows of a full layer hold 2w + 11 per row plus
   10w - 5 more for each edge row among them.
   */
  lemma {:induction false} RowsStonesClosed(w: int, n: nat)
    requires w >= 1 && n <= 2 * w + 1
    ensures RowsStones(w, 2 * w + 1, n) ==
      Rep(n, 2 * w + 11) + (if n >= 1 then 10 * w - 5 else 0) + (if n == 2 * w + 1 then 10 * w - 5 else 0)
  {
    if n > 0 {
      RowsStonesClosed(w, n - 1);
    }
  }

  /** The closed forms of the two counts of a layer of any two distinct kinds. */
  lemma {:induction false} LayerCounts(grass: Block, stone: Block, w: int)
    requires grass != stone && w >= 1
    ensures CountOf(BaseRows(grass, stone, w, Span(w), Span(w)), grass) == (2 * w + 1) * (2 * w + 1)
    ensures CountOf(BaseRows(grass, stone, w, Span(w), Span(w)), stone) == (2 * w + 1) * (2 * w + 1) + 5 * (8 * w)
  {
    RowsGrassCount(grass, stone, w, Span(w), Span(w));
    RowsStoneCount(grass, stone, w, Span(w), Span(w));
    LayerTotals(w);
  }

  /** The row sums of a layer of half-width `w >= 1` in closed form. */
  lemma LayerTotals(w: int)
    requires w >= 1
    ensures Rep(Span(w), Span(w)) == (2 * w + 1) * (2 * w + 1)
    ensures RowsStones(w, Span(w), Span(w)) == (2 * w + 1) * (2 * w + 1) + 5 * (8 * w)
  {
    var k := 2 * w + 1;
    RowsStonesClosed(w, k);
    RepIsProduct(k, k);
    RepIsProduct(k, k + 10);
    assert k * (k + 10) == k * k + 10 * k;
  }

  /**
   The base layer holds one grass placement per (x, z) of the square, and as
   many stones plus five for each of the 8w cells of the perimeter — so more
   stones than grass.
   */
  lemma BaseLayerCounts(w: int)
    requires w >= 1
    ensures CountOf(BaseLayer(w), GRASS) == (2 * w + 1) * (2 * w + 1)
    ensures CountOf(BaseLayer(w), STONE) == (2 * w + 1) * (2 * w + 1) + 5 * (8 * w)
  {
    KindsDistinct();
    LayerCounts(GRASS, STONE, w);
  }

  // ---------------------------------------------------------------- patches

  /**
   Cell (x, z) belongs to a patch of half-side `s` around (cx, cz): it lies
   within distance s + 1 of the centre and, for a patch that keeps `clear`
   of the spawn area, at least 5 from the origin.
   */
  predicate InPatch(cx: int, cz: int, s: int, clear: bool, x: int, z: int)
  {
    Square(x - cx) + Square(z - cz) <= Square(s + 1) && (clear ==> Square(x) + Square(z) >= Square(5))
  }

  /** The kept cells of strip x of a patch at height y, among z = cz - s .. cz - s + n - 1. */
  function PatchStrip(cx: int, y: int, cz: int, s: int, clear: bool, x: int, n: nat): seq<Pos>
  {
    if n == 0 then []
    else
      var z := cz - s + n - 1;
      PatchStrip(cx, y, cz, s, clear, x, n - 1) + (if InPatch(cx, cz, s, clear, x, z) then [(x, y, z)] else [])
  }

  /** The strips x = cx - s .. cx - s + n - 1 of a patch, each over `cols` values of z. */
  function PatchRows(cx: int, y: int, cz: int, s: int, clear: bool, cols: nat, n: nat): seq<Pos>
  {
    if n == 0 then [] else PatchRows(cx, y, cz, s, clear, cols, n - 1) + PatchStrip(cx, y, cz, s, clear, cx - s + n - 1, cols)
  }

  /**
   The cells of a roughly round patch at height y scanned over the square of
   half-side s around (cx, cz), row by row; the layer of a hill and the
   single layer of a cloud are patches.
   */
  function Patch(cx: int, y: int, cz: int, s: int, clear: bool): seq<Pos>
  {
    PatchRows(cx, y, cz, s, clear, Span(s), Span(s))
  }

  /** Each position of `ps` with kind `b`. */
  function Paint(b: Block, ps: seq<Pos>): (r: seq<Placement>)
    ensures |r| == |ps| && forall i :: 0 <= i < |ps| ==> r[i] == (b, ps[i])
  {
    seq(|ps|, i requires 0 <= i < |ps| => (b, ps[i]))
  }

  lemma PaintAppend(b: Block, ps: seq<Pos>, qs: seq<Pos>)
    ensures Paint(b, ps + qs) == Paint(b, ps) + Paint(b, qs)
  {
  }

  lemma PaintMembers(b: Block, ps: seq<Pos>, e: Placement)
    ensures e in Paint(b, ps) <==> e.0 == b && e.1 in ps
  {
    if e.0 == b && e.1 in ps {
      var i :| 0 <= i < |ps| && ps[i] == e.1;
      assert Paint(b, ps)[i] == e;
    }
  }

  lemma PaintPrefix(b: Block, ps: seq<Pos>, qs: seq<Pos>)
    requires ps <= qs
    ensures Paint(b, ps) <= Paint(b, qs)
  {
  }

  /** The kept cells among the first m values of z are a start of those among the first n. */
  lemma {:induction false} PatchStripPrefix(cx: int, y: int, cz: int, s: int, clear: bool, x: int, m: nat, n: nat)
    requires m <= n
    ensures PatchStrip(cx, y, cz, s, clear, x, m) <= PatchStrip(cx, y, cz, s, clear, x, n)
  {
    if m < n {
      PatchStripPrefix(cx, y, cz, s, clear, x, m, n - 1);
    }
  }

  /** The first m strips of a patch are a start of its first n strips. */
  lemma {:induction false} PatchRowsPrefix(cx: int, y: int, cz: int, s: int, clear: bool, cols: nat, m: nat, n: nat)
    requires m <= n
    ensures PatchRows(cx, y, cz, s, clear, cols, m) <= PatchRows(cx, y, cz, s, clear, cols, n)
  {
    if m < n {
      PatchRowsPrefix(cx, y, cz, s, clear, cols, m, n - 1);
    }
  }

  lemma {:induction false} PatchStripMembers(cx: int, y: int, cz: int, s: int, clear: bool, x: int, n: nat, q: Pos)
    ensures q in PatchStrip(cx, y, cz, s, clear, x, n) <==>
      (q.0 == x && q.1 == y && cz - s <= q.2 < cz - s + n && InPatch(cx, cz, s, clear, x, q.2))
  {
    if n > 0 {
      PatchStripMembers(cx, y, cz, s, clear, x, n - 1, q);
    }
  }

  lemma {:induction false} PatchRowsMembers(cx: int, y: int, cz: int, s: int, clear: bool, cols: nat, n: nat, q: Pos)
    ensures q in PatchRows(cx, y, cz, s, clear, cols, n) <==>
      (q.1 == y && cx - s <= q.0 < cx - s + n && cz - s <= q.2 < cz - s + cols && InPatch(cx, cz, s, clear, q.0, q.2))
  {
    if n > 0 {
      PatchRowsMembers(cx, y, cz, s, clear, cols, n - 1, q);
      PatchStripMembers(cx, y, cz, s, clear, cx - s + n - 1, cols, q);
    }
  }

  /**
   A patch holds exactly the cells at height y within the square of half-side
   s around (cx, cz) that are within distance s + 1 of the centre (and clear
   of the spawn area when asked); a negative s gives an empty patch.
   */
  lemma PatchMembers(cx: int, y: int, cz: int, s: int, clear: bool, q: Pos)
    ensures q in Patch(cx, y, cz, s, clear) <==>
      (q.1 == y && cx - s <= q.0 <= cx + s && cz - s <= q.2 <= cz + s && InPatch(cx, cz, s, clear, q.0, q.2))
  {
    PatchRowsMembers(cx, y, cz, s, clear, Span(s), Span(s), q);
  }

  /** Two lists without repeats and without a common position join into one without repeats. */
  lemma NoRepeatsAppend(a: seq<Pos>, c: seq<Pos>)
    requires NoRepeats(a) && NoRepeats(c)
    requires forall q :: q in a ==> q !in c
    ensures NoRepeats(a + c)
  {
    forall i, j | 0 <= i < j < |a + c|
      ensures (a + c)[i] != (a + c)[j]
    {
      if i < |a| && j >= |a| {
        assert (a + c)[i] in a && (a + c)[j] == c[j - |a|];
      }
    }
  }

  /** Where the cells of a strip lie, without the shape test. */
  lemma {:induction false} PatchStripAt(cx: int, y: int, cz: int, s: int, clear: bool, x: int, n: nat, q: Pos)
    requires q in PatchStrip(cx, y, cz, s, clear, x, n)
    ensures q.0 == x && q.1 == y && cz - s <= q.2 < cz - s + n
  {
    if q !in PatchStrip(cx, y, cz, s, clear, x, n - 1) {
      assert q == (x, y, cz - s + n - 1);
    } else {
      PatchStripAt(cx, y, cz, s, clear, x, n - 1, q);
    }
  }

  /** Where the cells of a run of strips lie, without the shape test. */
  lemma {:induction false} PatchRowsAt(cx: int, y: int, cz: int, s: int, clear: bool, cols: nat, n: nat, q: Pos)
    requires q in PatchRows(cx, y, cz, s, clear, cols, n)
    ensures cx - s <= q.0 < cx - s + n
  {
    if n > 0 {
      var a, c := PatchRows(cx, y, cz, s, clear, cols, n - 1), PatchStrip(cx, y, cz, s, clear, cx - s + n - 1, cols);
      assert q in a + c;
      if q in a {
        PatchRowsAt(cx, y, cz, s, clear, cols, n - 1, q);
      } else {
        PatchStripAt(cx, y, cz, s, clear, cx - s + n - 1, cols, q);
      }
    }
  }

  lemma {:induction false} PatchStripNoRepeats(cx: int, y: int, cz: int, s: int, clear: bool, x: int, n: nat)
    ensures NoRepeats(PatchStrip(cx, y, cz, s, clear, x, n))
  {
    if n > 0 {
      var z := cz - s + n - 1;
      var a := PatchStrip(cx, y, cz, s, clear, x, n - 1);
      PatchStripNoRepeats(cx, y, cz, s, clear, x, n - 1);
      if (x, y, z) in a {
        PatchStripAt(cx, y, cz, s, clear, x, n - 1, (x, y, z));
      }
      NoRepeatsAppend(a, if InPatch(cx, cz, s, clear, x, z) then [(x, y, z)] else []);
    }
  }

  lemma {:induction false} PatchRowsNoRepeats(cx: int, y: int, cz: int, s: int, clear: bool, cols: nat, n: nat)
    ensures NoRepeats(PatchRows(cx, y, cz, s, clear, cols, n))
  {
    if n > 0 {
      var x := cx - s + n - 1;
      var a, c := PatchRows(cx, y, cz, s, clear, cols, n - 1), PatchStrip(cx, y, cz, s, clear, x, cols);
      PatchRowsNoRepeats(cx, y, cz, s, clear, cols, n - 1);
      PatchStripNoRepeats(cx, y, cz, s, clear, x, cols);
      forall q | q in a
        ensures q !in c
      {
        PatchRowsAt(cx, y, cz, s, clear, cols, n - 1, q);
        if q in c {
          PatchStripAt(cx, y, cz, s, clear, x, cols, q);
        }
      }
      NoRepeatsAppend(a, c);
    }
  }

  /** No cell of a patch is listed twice. */
  lemma PatchNoRepeats(cx: int, y: int, cz: int, s: int, clear: bool)
    ensures NoRepeats(Patch(cx, y, cz, s, clear))
  {
    PatchRowsNoRepeats(cx, y, cz, s, clear, Span(s), Span(s));
  }

  // ---------------------------------------------------------------- hills

  /** The layers 0 .. k - 1 of a hill of kind b: layer j at height -1 + j, of half-side side - j. */
  function HillLayers(b: Block, cx: int, cz: int, side: int, k: nat): seq<Placement>
  {
    if k == 0 then [] else HillLayers(b, cx, cz, side, k - 1) + Paint(b, Patch(cx, -1 + k - 1, cz, side - (k - 1), true))
  }

  /** The first m layers of a hill are a start of its first n layers. */
  lemma {:induction false} HillLayersPrefix(b: Block, cx: int, cz: int, side: int, m: nat, n: nat)
    requires m <= n
    ensures HillLayers(b, cx, cz, side, m) <= HillLayers(b, cx, cz, side, n)
  {
    if m < n {
      HillLayersPrefix(b, cx, cz, side, m, n - 1);
    }
  }

  /** A hill of `height` layers of kind `block` around (centerX, centerZ), tapering by one per layer. */
  function Hill(centerX: int, centerZ: int, height: nat, sideLength: int, block: Block): seq<Placement>
  {
    HillLayers(block, centerX, centerZ, sideLength, height)
  }

  /** Builds a hill layer by layer; each layer is one cell narrower than the one below. */
  method GenerateHill(centerX: int, centerZ: int, height: nat, sideLength: int, block: Block) returns (hill: seq<Placement>)
    ensures hill == Hill(centerX, centerZ, height, sideLength, block)
  {
    var base := -1;
    var taperRate := 1;
    var s := sideLength;
    hill := [];
    var y := base;
    while y < base + height
      invariant base <= y <= base + height
      invariant s == sideLength - (y - base)
      invariant hill == HillLayers(block, centerX, centerZ, sideLength, y - base)
    {
      hill := AppendHillLayer(hill, block, centerX, centerZ, s, y);
      s := s - taperRate;
      y := y + 1;
    }
  }

  /** One pass of the layer loop of `GenerateHill`: the layer at height y appended to `hill`. */
  method AppendHillLayer(hill: seq<Placement>, block: Block, centerX: int, centerZ: int, s: int, y: int)
    returns (r: seq<Placement>)
    ensures r == hill + Paint(block, Patch(centerX, y, centerZ, s, true))
  {
    r := hill;
    var x := centerX - s;
    ghost var n: nat := 0;
    while x < centerX + s + 1
      invariant x == centerX - s + n && n <= Span(s)
      invariant r == hill + Paint(block, PatchRows(centerX, y, centerZ, s, true, Span(s), n))
    {
      ghost var rows := PatchRows(centerX, y, centerZ, s, true, Span(s), n);
      ghost var strip := PatchStrip(centerX, y, centerZ, s, true, x, Span(s));
      assert PatchRows(centerX, y, centerZ, s, true, Span(s), n + 1) == rows + strip;
      r := AppendHillStrip(r, block, centerX, centerZ, s, x, y);
      PaintAppend(block, rows, strip);
      assert r == hill + (Paint(block, rows) + Paint(block, strip));
      x, n := x + 1, n + 1;
    }
  }

  /** One pass of the strip loop of `AppendHillLayer`: strip x appended to `hill`. */
  method AppendHillStrip(hill: seq<Placement>, block: Block, centerX: int, centerZ: int, s: int, x: int, y: int)
    returns (r: seq<Placement>)
    ensures r == hill + Paint(block, PatchStrip(centerX, y, centerZ, s, true, x, Span(s)))
  {
    r := hill;
    var z := centerZ - s;
    while z < centerZ + s + 1
      invariant z == centerZ - s || centerZ - s <= z <= centerZ + s + 1
      invariant r == hill + Paint(block, PatchStrip(centerX, y, centerZ, s, true, x, z - (centerZ - s)))
    {
      ghost var strip := PatchStrip(centerX, y, centerZ, s, true, x, z - (centerZ - s));
      if Square(x - centerX) + Square(z - centerZ) > Square(s + 1) {
        // outside the round: skipped
      } else if Square(x - 0) + Square(z - 0) < Square(5) {
        // in the spawn area: skipped
      } else {
        r := r + [(block, (x, y, z))];
        PaintAppend(block, strip, [(x, y, z)]);
      }
      z := z + 1;
    }
  }

  lemma {:induction false} HillLayersMembers(b: Block, cx: int, cz: int, side: int, k: nat, e: Placement)
    ensures e in HillLayers(b, cx, cz, side, k) <==>
      (e.0 == b && -1 <= e.1.1 < -1 + k && e.1 in Patch(cx, e.1.1, cz, side - (e.1.1 + 1), true))
  {
    if k > 0 {
      var y := -1 + k - 1;
      HillLayersMembers(b, cx, cz, side, k - 1, e);
      PaintMembers(b, Patch(cx, y, cz, side - (k - 1), true), e);
      PatchMembers(cx, y, cz, side - (k - 1), true, e.1);
    }
  }

  /**
   Every block of a hill has the hill's kind; its layers run from y = -1 up
   to y = height - 2; the cells of layer y are those within the square of
   half-side s = sideLength - (y + 1) and within distance s + 1 of the
   centre, and none is closer than 5 to the origin.
   */
  lemma HillMembers(centerX: int, centerZ: int, height: nat, sideLength: int, block: Block, e: Placement)
    ensures e in Hill(centerX, centerZ, height, sideLength, block) <==>
      (e.0 == block && -1 <= e.1.1 < -1 + height &&
       var s := sideLength - (e.1.1 + 1);
       centerX - s <= e.1.0 <= centerX + s && centerZ - s <= e.1.2 <= centerZ + s &&
       InPatch(centerX, centerZ, s, true, e.1.0, e.1.2))
  {
    HillLayersMembers(block, centerX, centerZ, sideLength, height, e);
    PatchMembers(centerX, e.1.1, centerZ, sideLength - (e.1.1 + 1), true, e.1);
  }

  /** The random draws that shape one hill. */
  datatype HillDraw = HillDraw(centerX: int, centerZ: int, height: nat, sideLength: int, block: Block)

  /** The ranges the game draws from: centres 10 inside the walls, heights 1 to 6, half-sides 4 to 8. */
  predicate ValidHillDraw(worldSize: int, d: HillDraw)
  {
    && -(worldSize - 10) <= d.centerX <= worldSize - 10
    && -(worldSize - 10) <= d.centerZ <= worldSize - 10
    && 1 <= d.height <= 6
    && 4 <= d.sideLength <= 8
    && (d.block == GRASS || d.block == SAND || d.block == BRICK)
  }

  function HillOf(d: HillDraw): seq<Placement>
  {
    Hill(d.centerX, d.centerZ, d.height, d.sideLength, d.block)
  }

  /** Builds one hill per draw. */
  method GenerateHills(draws: seq<HillDraw>) returns (hills: seq<seq<Placement>>)
    ensures |hills| == |draws|
    ensures forall i :: 0 <= i < |draws| ==> hills[i] == HillOf(draws[i])
  {
    hills := [];
    for i := 0 to |draws|
      invariant |hills| == i
      invariant forall j :: 0 <= j < i ==> hills[j] == HillOf(draws[j])
    {
      var d := draws[i];
      var hill := GenerateHill(d.centerX, d.centerZ, d.height, d.sideLength, d.block);
      hills := hills + [hill];
    }
  }

  /** All the hills of the draws, one after the other. */
  function Hills(draws: seq<HillDraw>): seq<Placement>
  {
    if draws == [] then [] else Hills(draws[..|draws| - 1]) + HillOf(draws[|draws| - 1])
  }

  lemma {:induction false} HillsMember(draws: seq<HillDraw>, e: Placement)
    requires e in Hills(draws)
    ensures exists i :: 0 <= i < |draws| && e in HillOf(draws[i])
  {
    var a := draws[..|draws| - 1];
    if e in Hills(a) {
      HillsMember(a, e);
      var i :| 0 <= i < |a| && e in HillOf(a[i]);
      assert draws[i] == a[i];
    }
  }

  /** The hills of the first i draws are a start of the hills of all the draws. */
  lemma {:induction false} HillsPrefix(draws: seq<HillDraw>, i: nat)
    requires i <= |draws|
    ensures Hills(draws[..i]) <= Hills(draws)
  {
    var n := |draws|;
    if i < n {
      HillsPrefix(draws[..n - 1], i);
      assert draws[..n - 1][..i] == draws[..i];
    } else {
      assert draws[..i] == draws;
    }
  }

  /**
   A hill drawn from the game's ranges is of grass, sand or brick, lies
   between y = -1 and y = 4, and stays at least two cells inside the outer
   walls; so it never reaches the base layer's floor nor its walls.
   */
  lemma HillInside(worldSize: int, d: HillDraw, e: Placement)
    requires ValidHillDraw(worldSize, d)
    requires e in HillOf(d)
    ensures e.0 == GRASS || e.0 == SAND || e.0 == BRICK
    ensures -1 <= e.1.1 <= 4
    ensures -(worldSize - 2) <= e.1.0 <= worldSize - 2 && -(worldSize - 2) <= e.1.2 <= worldSize - 2
  {
    HillMembers(d.centerX, d.centerZ, d.height, d.sideLength, d.block, e);
  }

  // ---------------------------------------------------------------- trees

  /** The trunk of a tree: `h` trunk blocks from (x, y, z) upwards. */
  function Trunk(x: int, y: int, z: int, h: nat): (r: seq<Placement>)
    ensures |r| == h
  {
    seq(h, k => (TREE_TRUNK, (x, y + k, z)))
  }

  /**
   Leaf i of a crown whose lowest layer is at height `top`: the offsets dx,
   dy and dz are scanned in that nesting order over -2..2, 0..2 and -2..2.
   */
  function Leaf(x: int, top: int, z: int, i: int): Placement
  {
    (TREE_LEAVES, (x + i / 15 - 2, top + i % 15 / 5, z + i % 5 - 2))
  }

  /** The 75 leaves of a crown. */
  function Crown(x: int, top: int, z: int): (r: seq<Placement>)
    ensures |r| == 75
  {
    seq(75, i => Leaf(x, top, z, i))
  }

  /** A tree standing on (x, y - 1, z): its trunk of height h, then its crown right above. */
  function SingleTree(x: int, y: int, z: int, h: nat): seq<Placement>
  {
    Trunk(x, y, z, h) + Crown(x, y + h, z)
  }

  /** The scan position of offsets (dx + 2, dy, dz + 2) = (a, b, c) gives back those offsets. */
  lemma LeafIndex(a: int, b: int, c: int)
    requires 0 <= a < 5 && 0 <= b < 3 && 0 <= c < 5
    ensures (15 * a + 5 * b + c) / 15 == a && (15 * a + 5 * b + c) % 15 / 5 == b && (15 * a + 5 * b + c) % 5 == c
  {
    var i := 15 * a + 5 * b + c;
    assert i % 15 == 5 * b + c;
  }

  /** Builds the trunk, then the crown layer by layer. */
  method GenerateSingleTree(x: int, y: int, z: int, trunkHeight: nat) returns (tree: seq<Placement>)
    ensures tree == SingleTree(x, y, z, trunkHeight)
  {
    tree := [];
    for stem := 0 to trunkHeight
      invariant tree == Trunk(x, y, z, stem)
    {
      tree := tree + [(TREE_TRUNK, (x, y + stem, z))];
    }
    ghost var trunk := tree;
    ghost var crown := Crown(x, y + trunkHeight, z);
    for dx := -2 to 3
      invariant tree == trunk + crown[..15 * (dx + 2)]
    {
      for dy := 0 to 3
        invariant tree == trunk + crown[..15 * (dx + 2) + 5 * dy]
      {
        for dz := -2 to 3
          invariant tree == trunk + crown[..15 * (dx + 2) + 5 * dy + (dz + 2)]
        {
          var i := 15 * (dx + 2) + 5 * dy + (dz + 2);
          LeafIndex(dx + 2, dy, dz + 2);
          assert crown[..i + 1] == crown[..i] + [(TREE_LEAVES, (x + dx, y + trunkHeight + dy, z + dz))];
          tree := tree + [(TREE_LEAVES, (x + dx, y + trunkHeight + dy, z + dz))];
        }
      }
    }
  }

  /** A crown holds exactly the leaves of the 5 x 3 x 5 box over its centre. */
  lemma CrownMembers(x: int, top: int, z: int, e: Placement)
    ensures e in Crown(x, top, z) <==>
      (e.0 == TREE_LEAVES && x - 2 <= e.1.0 <= x + 2 && top <= e.1.1 <= top + 2 && z - 2 <= e.1.2 <= z + 2)
  {
    if e.0 == TREE_LEAVES && x - 2 <= e.1.0 <= x + 2 && top <= e.1.1 <= top + 2 && z - 2 <= e.1.2 <= z + 2 {
      var a, b, c := e.1.0 - x + 2, e.1.1 - top, e.1.2 - z + 2;
      LeafIndex(a, b, c);
      assert Crown(x, top, z)[15 * a + 5 * b + c] == e;
    }
  }

  /** No two leaves of a crown share a cell: the crown has 75 distinct leaves. */
  lemma CrownNoRepeats(x: int, top: int, z: int)
    ensures forall i, j :: 0 <= i < j < 75 ==> Crown(x, top, z)[i].1 != Crown(x, top, z)[j].1
  {
    forall i, j | 0 <= i < j < 75
      ensures Leaf(x, top, z, i).1 != Leaf(x, top, z, j).1
    {
      assert i == 15 * (i / 15) + 5 * (i % 15 / 5) + i % 5;
      assert j == 15 * (j / 15) + 5 * (j % 15 / 5) + j % 5;
    }
  }

  /**
   A tree is h trunk blocks straight up from (x, y, z), starting with that
   cell, followed by 75 leaves of the box x +- 2, y + h .. y + h + 2, z +- 2.
   */
  lemma SingleTreeShape(x: int, y: int, z: int, h: nat, e: Placement)
    ensures |SingleTree(x, y, z, h)| == h + 75
    ensures h > 0 ==> SingleTree(x, y, z, h)[0] == (TREE_TRUNK, (x, y, z))
    ensures forall k :: 0 <= k < h ==> SingleTree(x, y, z, h)[k] == (TREE_TRUNK, (x, y + k, z))
    ensures forall k :: h <= k < h + 75 ==> SingleTree(x, y, z, h)[k].0 == TREE_LEAVES
    ensures e in SingleTree(x, y, z, h) <==>
      (e.0 == TREE_TRUNK && e.1.0 == x && y <= e.1.1 < y + h && e.1.2 == z) ||
      (e.0 == TREE_LEAVES && x - 2 <= e.1.0 <= x + 2 && y + h <= e.1.1 <= y + h + 2 && z - 2 <= e.1.2 <= z + 2)
  {
    var t := SingleTree(x, y, z, h);
    assert forall k :: h <= k < h + 75 ==> t[k] == Crown(x, y + h, z)[k - h];
    CrownMembers(x, y + h, z, e);
    if e.0 == TREE_TRUNK && e.1.0 == x && y <= e.1.1 < y + h && e.1.2 == z {
      assert t[e.1.1 - y] == e;
    }
    KindsDistinct();
  }

  /** The cell j above p. */
  function Above(p: Pos, j: int): Pos
  {
    (p.0, p.1 + j, p.2)
  }

  /** The world holds grass at p, at or below y = 0. */
  predicate LowGrass(world: map<Pos, Block>, p: Pos)
  {
    p in world && world[p] == GRASS && p.1 <= 0
  }

  /**
   A tree may stand on p: p holds low grass at the lowest level of all low
   grass, and the nine cells above p are empty.
   */
  predicate TreeSite(world: map<Pos, Block>, p: Pos)
  {
    && LowGrass(world, p)
    && (forall q | q in world :: LowGrass(world, q) ==> p.1 <= q.1)
    && (forall j :: 1 <= j < 10 ==> Above(p, j) !in world)
  }

  function TreeSites(world: map<Pos, Block>): set<Pos>
  {
    set p | p in world && TreeSite(world, p)
  }

  /**
   The places suggested for trees: the lowest low grass cells with nothing in
   the nine cells above. The lowest level exists only when some low grass
   does.
   */
  method FindTreeSites(world: map<Pos, Block>) returns (sites: set<Pos>)
    requires exists p :: LowGrass(world, p)
    ensures sites == TreeSites(world)
  {
    var grassList := set p | p in world && world[p] == GRASS && p.1 <= 0;
    ghost var low :| LowGrass(world, low);
    assert low in grassList;
    var rest := grassList;
    var first :| first in rest;
    var minGrassLevel := first.1;
    while rest != {}
      decreases |rest|
      invariant rest <= grassList
      invariant exists p :: p in grassList && p.1 == minGrassLevel
      invariant forall p :: p in grassList - rest ==> minGrassLevel <= p.1
      invariant first in rest || first.1 >= minGrassLevel
    {
      var p :| p in rest;
      if p.1 < minGrassLevel {
        minGrassLevel := p.1;
      }
      rest := rest - {p};
    }
    var groundGrassList := set p | p in grassList && p.1 == minGrassLevel;
    sites := set p | p in groundGrassList && forall j :: 1 <= j < 10 ==> Above(p, j) !in world;
    forall p
      ensures p in sites <==> p in TreeSites(world)
    {
      if p in TreeSites(world) {
        var m :| m in grassList && m.1 == minGrassLevel;
        assert LowGrass(world, m);
      }
    }
  }

  /**
   The bases chosen so far among `sites`, with `left` the sites not chosen
   yet: each base is a site no longer left, none is chosen twice, and every
   site is either chosen or left.
   */
  predicate Chosen(bases: seq<Pos>, sites: set<Pos>, left: set<Pos>)
  {
    && left <= sites && |left| + |bases| == |sites|
    && (forall i :: 0 <= i < |bases| ==> bases[i] in sites && bases[i] !in left)
    && NoRepeats(bases)
  }

  /** Choosing one more of the sites left keeps the choice exact. */
  lemma ChosenStep(before: seq<Pos>, left: set<Pos>, base: Pos, bases: seq<Pos>, rest: set<Pos>, sites: set<Pos>)
    requires Chosen(before, sites, left) && base in left
    requires bases == before + [base] && rest == left - {base}
    ensures Chosen(bases, sites, rest)
  {
    NoRepeatsAppend(before, [base]);
  }

  /** A finished choice: as many bases as the sites taken, each a site, none twice. */
  lemma ChosenSites(bases: seq<Pos>, sites: set<Pos>, left: set<Pos>)
    requires Chosen(bases, sites, left)
    ensures |bases| <= |sites| && (left == {} ==> |bases| == |sites|)
    ensures forall i :: 0 <= i < |bases| ==> bases[i] in sites
    ensures NoRepeats(bases)
  {
  }

  /**
   Plants up to `numTrees` trees of trunk height 5, each on a different site
   chosen at random among those not chosen yet; it stops early when the
   sites run out. `bases` lists the chosen sites in order.
   */
  method GenerateTrees(world: map<Pos, Block>, numTrees: nat) returns (trees: seq<seq<Placement>>, ghost bases: seq<Pos>)
    requires exists p :: LowGrass(world, p)
    ensures |trees| == if numTrees < |TreeSites(world)| then numTrees else |TreeSites(world)|
    ensures forall i :: 0 <= i < |trees| ==>
      |trees[i]| == 80 && trees[i][0].0 == TREE_TRUNK &&
      (trees[i][0].1.0, trees[i][0].1.1 - 1, trees[i][0].1.2) in TreeSites(world)
    ensures forall i, j :: 0 <= i < j < |trees| ==> trees[i][0].1 != trees[j][0].1
    ensures |bases| == |trees| && NoRepeats(bases)
    ensures forall i :: 0 <= i < |bases| ==> bases[i] in TreeSites(world)
    ensures forall i :: 0 <= i < |bases| ==> trees[i] == SingleTree(bases[i].0, bases[i].1 + 1, bases[i].2, 5)
  {
    var suggestedPlacesForTrees := FindTreeSites(world);
    trees, bases := [], [];
    for n := 0 to numTrees
      invariant |trees| == |bases| == n
      invariant Chosen(bases, TreeSites(world), suggestedPlacesForTrees)
      invariant forall i :: 0 <= i < n ==> trees[i] == SingleTree(bases[i].0, bases[i].1 + 1, bases[i].2, 5)
    {
      if suggestedPlacesForTrees == {} {
        break;
      }
      var base :| base in suggestedPlacesForTrees;
      ChosenStep(bases, suggestedPlacesForTrees, base, bases + [base], suggestedPlacesForTrees - {base}, TreeSites(world));
      suggestedPlacesForTrees := suggestedPlacesForTrees - {base};
      var singleTree := GenerateSingleTree(base.0, base.1 + 1, base.2, 5);
      trees, bases := trees + [singleTree], bases + [base];
    }
    ChosenSites(bases, TreeSites(world), suggestedPlacesForTrees);
    TreesOnSites(trees, bases, TreeSites(world));
  }

  /** Trees grown on distinct sites are 80 blocks each, and their trunks start one cell above distinct sites. */
  lemma TreesOnSites(trees: seq<seq<Placement>>, bases: seq<Pos>, sites: set<Pos>)
    requires |trees| == |bases| && NoRepeats(bases)
    requires forall i :: 0 <= i < |bases| ==> bases[i] in sites
    requires forall i :: 0 <= i < |bases| ==> trees[i] == SingleTree(bases[i].0, bases[i].1 + 1, bases[i].2, 5)
    ensures forall i :: 0 <= i < |trees| ==>
      |trees[i]| == 80 && trees[i][0].0 == TREE_TRUNK &&
      (trees[i][0].1.0, trees[i][0].1.1 - 1, trees[i][0].1.2) in sites
    ensures forall i, j :: 0 <= i < j < |trees| ==> trees[i][0].1 != trees[j][0].1
  {
    forall i | 0 <= i < |trees|
      ensures |trees[i]| == 80 && trees[i][0] == (TREE_TRUNK, (bases[i].0, bases[i].1 + 1, bases[i].2))
    {
      SingleTreeShape(bases[i].0, bases[i].1 + 1, bases[i].2, 5, trees[i][0]);
    }
  }

  // ---------------------------------------------------------------- clouds

  /** A flat cloud of one colour: a patch at height cy with no clear area. */
  function SingleCloud(cx: int, cy: int, cz: int, s: int, colour: Block): seq<Placement>
  {
    Paint(colour, Patch(cx, cy, cz, s, false))
  }

  /** Builds a cloud strip by strip. */
  method GenerateSingleCloud(cloudCenterX: int, cloudCenterY: int, cloudCenterZ: int, s: int, cloudColor: Block)
    returns (singleCloud: seq<Placement>)
    ensures singleCloud == SingleCloud(cloudCenterX, cloudCenterY, cloudCenterZ, s, cloudColor)
  {
    singleCloud := [];
    var x := cloudCenterX - s;
    ghost var n: nat := 0;
    while x < cloudCenterX + s + 1
      invariant x == cloudCenterX - s + n && n <= Span(s)
      invariant singleCloud == Paint(cloudColor, PatchRows(cloudCenterX, cloudCenterY, cloudCenterZ, s, false, Span(s), n))
    {
      ghost var rows := PatchRows(cloudCenterX, cloudCenterY, cloudCenterZ, s, false, Span(s), n);
      ghost var before := singleCloud;
      var z := cloudCenterZ - s;
      ghost var m: nat := 0;
      while z < cloudCenterZ + s + 1
        invariant z == cloudCenterZ - s + m && m <= Span(s)
        invariant singleCloud == before + Paint(cloudColor, PatchStrip(cloudCenterX, cloudCenterY, cloudCenterZ, s, false, x, m))
      {
        ghost var strip := PatchStrip(cloudCenterX, cloudCenterY, cloudCenterZ, s, false, x, m);
        if Square(x - cloudCenterX) + Square(z - cloudCenterZ) <= Square(s + 1) {
          var position := (x, cloudCenterY, z);
          singleCloud := singleCloud + [(cloudColor, position)];
          PaintAppend(cloudColor, strip, [position]);
        }
        z, m := z + 1, m + 1;
      }
      PaintAppend(cloudColor, rows, PatchStrip(cloudCenterX, cloudCenterY, cloudCenterZ, s, false, x, Span(s)));
      x, n := x + 1, n + 1;
    }
  }

  /**
   A cloud is one colour at the single height cy, covers exactly the cells
   of the square of half-side s around (cx, cz) within distance s + 1 of the
   centre, and lists no cell twice.
   */
  lemma SingleCloudShape(cx: int, cy: int, cz: int, s: int, colour: Block, e: Placement)
    ensures e in SingleCloud(cx, cy, cz, s, colour) <==>
      (e.0 == colour && e.1.1 == cy && cx - s <= e.1.0 <= cx + s && cz - s <= e.1.2 <= cz + s &&
       InPatch(cx, cz, s, false, e.1.0, e.1.2))
    ensures forall i, j :: 0 <= i < j < |SingleCloud(cx, cy, cz, s, colour)| ==>
      SingleCloud(cx, cy, cz, s, colour)[i].1 != SingleCloud(cx, cy, cz, s, colour)[j].1
  {
    var ps := Patch(cx, cy, cz, s, false);
    PaintMembers(colour, ps, e);
    PatchMembers(cx, cy, cz, s, false, e.1);
    PatchNoRepeats(cx, cy, cz, s, false);
  }

  /** The random draws that shape one cloud. */
  datatype CloudDraw = CloudDraw(centerX: int, centerY: int, centerZ: int, s: int, colour: Block)

  /**
   The ranges the game draws from: a centre within the walls at one of the
   heights 18, 20, .., 26, a half-side of 3 to 6, a light or a dark colour.
   */
  predicate ValidCloudDraw(worldSize: int, d: CloudDraw)
  {
    && -worldSize <= d.centerX <= worldSize
    && -worldSize <= d.centerZ <= worldSize
    && d.centerY in {18, 20, 22, 24, 26}
    && 3 <= d.s <= 6
    && (d.colour == LIGHT_CLOUD || d.colour == DARK_CLOUD)
  }

  function CloudOf(d: CloudDraw): seq<Placement>
  {
    SingleCloud(d.centerX, d.centerY, d.centerZ, d.s, d.colour)
  }

  /** Builds one cloud per draw. */
  method GenerateClouds(draws: seq<CloudDraw>) returns (clouds: seq<seq<Placement>>)
    ensures |clouds| == |draws|
    ensures forall i :: 0 <= i < |draws| ==> clouds[i] == CloudOf(draws[i])
  {
    clouds := [];
    for i := 0 to |draws|
      invariant |clouds| == i
      invariant forall j :: 0 <= j < i ==> clouds[j] == CloudOf(draws[j])
    {
      var d := draws[i];
      var singleCloud := GenerateSingleCloud(d.centerX, d.centerY, d.centerZ, d.s, d.colour);
      clouds := clouds + [singleCloud];
    }
  }

  /**
   A cloud drawn from the game's ranges is light or dark, lies in the sky
   between y = 18 and y = 26, and reaches at most 6 cells beyond the walls.
   */
  lemma CloudInSky(worldSize: int, d: CloudDraw, e: Placement)
    requires ValidCloudDraw(worldSize, d)
    requires e in CloudOf(d)
    ensures e.0 == LIGHT_CLOUD || e.0 == DARK_CLOUD
    ensures 18 <= e.1.1 <= 26
    ensures -worldSize - 6 <= e.1.0 <= worldSize + 6 && -worldSize - 6 <= e.1.2 <= worldSize + 6
  {
    SingleCloudShape(d.centerX, d.centerY, d.centerZ, d.s, d.colour, e);
  }
}
