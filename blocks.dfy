/**
 The block catalog: a closed set of block kinds, each with three behaviour
 flags and the texture-atlas coordinates the renderer draws it with.
 */
module Blocks {

  /** A cell of the texture atlas, given by its column and row. */
  type AtlasCell = (int, int)

  /**
   A block kind. Kinds are compared by value; the eight catalog constants
   below have distinct names, so value equality is kind identity. A kind
   keeps the atlas cells of its top, bottom and side; its texture
   coordinates are computed from them once and never change.
   */
  datatype Block = Block(
    name: string,
    top: AtlasCell,
    bottom: AtlasCell,
    side: AtlasCell,
    isBreakable: bool,
    isCollidable: bool,
    canBuildOn: bool)
  {
    /** The 48 texture coordinates the renderer draws this kind with. */
    function textureCoordinates(): seq<real>
    {
      TexCoords(top, bottom, side)
    }
  }

  /**
   The corners of atlas square (x, y) in an n-by-n atlas, counter-clockwise
   from the lower-left corner, as (u, v) pairs.
   */
  function TexCoord(x: int, y: int, n: int := 4): (r: seq<real>)
    requires n != 0
    ensures |r| == 8
    ensures r[0] == r[6] && r[2] == r[4] && r[1] == r[3] && r[5] == r[7]
    ensures r[0] == x as real / n as real && r[1] == y as real / n as real
    ensures r[2] - r[0] == 1.0 / n as real && r[5] - r[1] == 1.0 / n as real
  {
    var m := 1.0 / n as real;
    var dx := x as real * m;
    var dy := y as real * m;
    [dx, dy, dx + m, dy, dx + m, dy + m, dx, dy + m]
  }

  /**
   Texture coordinates of a whole cube: the top square, the bottom square,
   then the side square once for each of the four side faces.
   */
  function TexCoords(top: AtlasCell, bottom: AtlasCell, side: AtlasCell): (r: seq<real>)
    ensures |r| == 48
  {
    var s := TexCoord(side.0, side.1);
    TexCoord(top.0, top.1) + TexCoord(bottom.0, bottom.1) + s + s + s + s
  }

  /** The 48 numbers are the top square's 8, the bottom square's 8, then the side square's 8 four times. */
  lemma TexCoordsLayout(top: AtlasCell, bottom: AtlasCell, side: AtlasCell)
    ensures var r := TexCoords(top, bottom, side);
      && r[..8] == TexCoord(top.0, top.1)
      && r[8..16] == TexCoord(bottom.0, bottom.1)
      && r[16..24] == r[24..32] == r[32..40] == r[40..48] == TexCoord(side.0, side.1)
  {
    var t := TexCoord(top.0, top.1);
    var b := TexCoord(bottom.0, bottom.1);
    var s := TexCoord(side.0, side.1);
    var r := t + b + s + s + s + s;
    assert r[..8] == t;
    assert r[8..16] == b;
    assert r[16..24] == s;
    assert r[24..32] == s;
    assert r[32..40] == s;
    assert r[40..48] == s;
  }

  /** The constructor of a block kind; every flag defaults to true. */
  function NewBlock(name: string, top: AtlasCell, bottom: AtlasCell, side: AtlasCell,
                    isBreakable: bool := true, isCollidable: bool := true,
                    canBuildOn: bool := true): (b: Block)
    ensures b.name == name && b.textureCoordinates() == TexCoords(top, bottom, side)
    ensures b.isBreakable == isBreakable && b.isCollidable == isCollidable && b.canBuildOn == canBuildOn
  {
    Block(name, top, bottom, side, isBreakable, isCollidable, canBuildOn)
  }

  const GRASS: Block := NewBlock("GRASS", (1, 0), (0, 1), (0, 0))
  const SAND: Block := NewBlock("SAND", (1, 1), (1, 1), (1, 1))
  const BRICK: Block := NewBlock("BRICK", (2, 0), (2, 0), (2, 0))
  const STONE: Block := NewBlock("STONE", (2, 1), (2, 1), (2, 1), isBreakable := false, canBuildOn := true)
  const LIGHT_CLOUD: Block := NewBlock("LIGHT_CLOUD", (3, 0), (3, 0), (3, 0),
                                       isBreakable := false, isCollidable := false, canBuildOn := false)
  const DARK_CLOUD: Block := NewBlock("DARK_CLOUD", (3, 1), (3, 1), (3, 1),
                                      isBreakable := false, isCollidable := false, canBuildOn := false)
  const TREE_TRUNK: Block := NewBlock("TREE_TRUNK", (1, 2), (1, 2), (2, 2),
                                      isBreakable := true, isCollidable := true, canBuildOn := true)
  const TREE_LEAVES: Block := NewBlock("TREE_LEAVES", (0, 2), (0, 2), (0, 2),
                                       isBreakable := true, isCollidable := false, canBuildOn := true)

  /** The eight kinds of the catalog. */
  const CATALOG: seq<Block> := [GRASS, SAND, BRICK, STONE, LIGHT_CLOUD, DARK_CLOUD, TREE_TRUNK, TREE_LEAVES]

  /** The flags of every catalog kind. */
  lemma CatalogFlags()
    ensures GRASS.isBreakable && GRASS.isCollidable && GRASS.canBuildOn
    ensures SAND.isBreakable && SAND.isCollidable && SAND.canBuildOn
    ensures BRICK.isBreakable && BRICK.isCollidable && BRICK.canBuildOn
    ensures TREE_TRUNK.isBreakable && TREE_TRUNK.isCollidable && TREE_TRUNK.canBuildOn
    ensures !STONE.isBreakable && STONE.isCollidable && STONE.canBuildOn
    ensures !LIGHT_CLOUD.isBreakable && !LIGHT_CLOUD.isCollidable && !LIGHT_CLOUD.canBuildOn
    ensures !DARK_CLOUD.isBreakable && !DARK_CLOUD.isCollidable && !DARK_CLOUD.canBuildOn
    ensures TREE_LEAVES.isBreakable && !TREE_LEAVES.isCollidable && TREE_LEAVES.canBuildOn
  {
  }

  /** Kinds that the generators tell apart are different values. */
  lemma KindsDistinct()
    ensures GRASS != STONE && GRASS != SAND && GRASS != BRICK && SAND != BRICK
    ensures TREE_TRUNK != TREE_LEAVES && LIGHT_CLOUD != DARK_CLOUD
  {
    assert GRASS.name[0] != STONE.name[0] && GRASS.name[0] != SAND.name[0];
    assert GRASS.name[0] != BRICK.name[0] && SAND.name[0] != BRICK.name[0];
    assert TREE_TRUNK.name[5] != TREE_LEAVES.name[5] && LIGHT_CLOUD.name[0] != DARK_CLOUD.name[0];
  }

  /** Texture coordinates of an atlas cell inside the atlas lie in the unit square. */
  lemma TexCoordInUnitSquare(x: int, y: int, n: int)
    requires 0 <= x < n && 0 <= y < n
    ensures forall k :: 0 <= k < 8 ==> 0.0 <= TexCoord(x, y, n)[k] <= 1.0
  {
    UnitFraction(x, n);
    UnitFraction(y, n);
  }

  lemma UnitFraction(x: int, n: int)
    requires 0 <= x < n
    ensures 0.0 <= x as real * (1.0 / n as real) && x as real * (1.0 / n as real) + 1.0 / n as real <= 1.0
  {
    var m := 1.0 / n as real;
    assert m > 0.0;
    assert x as real * m + m == (x + 1) as real * m;
    assert (x + 1) as real <= n as real;
    assert (x + 1) as real * m <= n as real * m;
    assert n as real * m == 1.0;
  }
}
