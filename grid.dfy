/**
 From exact coordinates to the block grid and to sectors: rounding to the
 nearest block (halves to even, as the language's `round` does) and the
 16-block column sectors used to load and unload parts of the world.
 */
module Grid {
  import opened Geometry

  /** Side length of a sector, in blocks. */
  const SECTOR_SIZE: int := 16

  /**
   The integer nearest to `r`; a value exactly halfway between two integers
   goes to the even one.
   */
  function Round(r: real): (k: int)
    ensures -0.5 <= r - k as real <= 0.5
    ensures (r - k as real == 0.5 || r - k as real == -0.5) ==> k % 2 == 0
  {
    var f := r.Floor;
    var d := r - f as real;
    if d < 0.5 then f
    else if d > 0.5 then f + 1
    else if f % 2 == 0 then f
    else f + 1
  }

  /** The two conditions of Round's contract determine its result. */
  lemma RoundUnique(r: real, k: int)
    requires -0.5 <= r - k as real <= 0.5
    requires (r - k as real == 0.5 || r - k as real == -0.5) ==> k % 2 == 0
    ensures k == Round(r)
  {
    var j := Round(r);
    assert -1.0 <= (j - k) as real <= 1.0;
  }

  /** Integers round to themselves. */
  lemma RoundInt(n: int)
    ensures Round(n as real) == n
  {
    RoundUnique(n as real, n);
  }

  /** Examples of ties: 0.5 goes down to 0, 1.5 and 2.5 both go to 2, -0.5 goes up to 0. */
  lemma RoundTies()
    ensures Round(0.5) == 0 && Round(1.5) == 2 && Round(2.5) == 2 && Round(-0.5) == 0 && Round(-1.5) == -2
  {
    RoundUnique(0.5, 0);
    RoundUnique(1.5, 2);
    RoundUnique(2.5, 2);
    RoundUnique(-0.5, 0);
    RoundUnique(-1.5, -2);
  }

  /** The block containing a point: each coordinate rounded. */
  function Normalize(v: Vec): (p: Pos)
    ensures -0.5 <= v.0 - p.0 as real <= 0.5
    ensures -0.5 <= v.1 - p.1 as real <= 0.5
    ensures -0.5 <= v.2 - p.2 as real <= 0.5
  {
    (Round(v.0), Round(v.1), Round(v.2))
  }

  /** A point with integer coordinates normalizes to that block. */
  lemma NormalizeBlock(p: Pos)
    ensures Normalize((p.0 as real, p.1 as real, p.2 as real)) == p
  {
    RoundInt(p.0);
    RoundInt(p.1);
    RoundInt(p.2);
  }

  /**
   The sector of a block: x and z divided by 16, rounding down, and y always 0,
   so a sector is a whole vertical column.
   */
  function SectorOf(p: Pos): (s: Pos)
    ensures s.1 == 0
    ensures SECTOR_SIZE * s.0 <= p.0 < SECTOR_SIZE * s.0 + SECTOR_SIZE
    ensures SECTOR_SIZE * s.2 <= p.2 < SECTOR_SIZE * s.2 + SECTOR_SIZE
  {
    (p.0 / SECTOR_SIZE, 0, p.2 / SECTOR_SIZE)
  }

  /** The sector is the only column whose 16-block span holds the position. */
  lemma SectorOfUnique(p: Pos, s: Pos)
    requires s.1 == 0
    requires SECTOR_SIZE * s.0 <= p.0 < SECTOR_SIZE * s.0 + SECTOR_SIZE
    requires SECTOR_SIZE * s.2 <= p.2 < SECTOR_SIZE * s.2 + SECTOR_SIZE
    ensures SectorOf(p) == s
  {
    var t := SectorOf(p);
    assert SECTOR_SIZE * (t.0 - s.0) < SECTOR_SIZE && SECTOR_SIZE * (s.0 - t.0) < SECTOR_SIZE;
    assert SECTOR_SIZE * (t.2 - s.2) < SECTOR_SIZE && SECTOR_SIZE * (s.2 - t.2) < SECTOR_SIZE;
  }

  /** The sector of a point: the sector of the block containing it. */
  function Sectorize(v: Vec): Pos
  {
    SectorOf(Normalize(v))
  }

  /** For example, the point (17, 5, -3) lies in sector (1, 0, -1). */
  lemma SectorizeExample()
    ensures Sectorize((17.0, 5.0, -3.0)) == (1, 0, -1)
  {
    NormalizeBlock((17, 5, -3));
  }
}
