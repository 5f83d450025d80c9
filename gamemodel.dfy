/**
 The game model: the world store as an object whose fields the operations
 update in place, the player it owns, and the per-tick update. Each method
 is proved against the functions of WorldStore, Collision and PlayerState,
 whose own lemmas state what the operations promise.
 */
module GameModel {
  import opened Blocks
  import opened Geometry
  import opened Grid
  import opened Options
  import opened WorldStore
  import Collision
  import opened PlayerState
  import opened Terrain

  // ---------------------------------------------------------------- the disk of sectors

  /** Offset (dx, dz) lies in the disk of sectors kept shown around the player. */
  predicate InDisk(dx: int, dz: int)
  {
    InPadSquare(dx, dz) && Square(dx) + Square(dz) <= Square(PAD + 1)
  }

  /** `t` is a sector of the disk around `o` whose offset comes before (x, z) in row order. */
  predicate ScannedBefore(o: Option<Pos>, t: Pos, x: int, z: int)
  {
    o.Some? && t.1 == o.value.1 && InDisk(t.0 - o.value.0, t.2 - o.value.2) &&
    (t.0 - o.value.0 < x || (t.0 - o.value.0 == x && t.2 - o.value.2 < z))
  }

  /** Scanning offset (dx, dz) adds the sector at that offset, if it lies in the disk. */
  lemma ScanStep(o: Option<Pos>, dx: int, dz: int, next: int)
    requires next == dz + 1
    ensures forall t :: ScannedBefore(o, t, dx, next) <==>
      ScannedBefore(o, t, dx, dz) || (o.Some? && t == (o.value.0 + dx, o.value.1, o.value.2 + dz) && InDisk(dx, dz))
  {
    forall t
      ensures ScannedBefore(o, t, dx, next) <==>
        ScannedBefore(o, t, dx, dz) || (o.Some? && t == (o.value.0 + dx, o.value.1, o.value.2 + dz) && InDisk(dx, dz))
    {
    }
  }

  /** Past the last offset of row dx, the scan has covered exactly what it has at the start of row dx + 1. */
  lemma RowStep(o: Option<Pos>, dx: int, next: int, first: int, past: int)
    requires next == dx + 1 && first == -PAD && past == PAD + 1
    ensures forall t :: ScannedBefore(o, t, next, first) <==> ScannedBefore(o, t, dx, past)
  {
    forall t
      ensures ScannedBefore(o, t, next, first) <==> ScannedBefore(o, t, dx, past)
    {
    }
  }

  /**
   The two sets of sectors that moving from `before` to `after` compares:
   the disk of sectors around each, and no sector for a missing one.
   */
  method NearbySectors(before: Option<Pos>, after: Option<Pos>) returns (beforeSet: set<Pos>, afterSet: set<Pos>)
    ensures beforeSet == Disk(before) && afterSet == Disk(after)
  {
    beforeSet, afterSet := {}, {};
    var pad := PAD;
    var dx := -pad;
    while dx <= pad
      invariant -pad <= dx <= pad + 1
      invariant forall t :: t in beforeSet <==> ScannedBefore(before, t, dx, -pad)
      invariant forall t :: t in afterSet <==> ScannedBefore(after, t, dx, -pad)
    {
      // the source scans the single vertical offset 0
      var dy := 0;
      var dz := -pad;
      while dz <= pad
        invariant -pad <= dz <= pad + 1
        invariant forall t :: t in beforeSet <==> ScannedBefore(before, t, dx, dz)
        invariant forall t :: t in afterSet <==> ScannedBefore(after, t, dx, dz)
      {
        ScanStep(before, dx, dz, dz + 1);
        ScanStep(after, dx, dz, dz + 1);
        if Square(dx) + Square(dy) + Square(dz) <= Square(pad + 1) {
          if before.Some? {
            var (x, y, z) := before.value;
            beforeSet := beforeSet + {(x + dx, y + dy, z + dz)};
          }
          if after.Some? {
            var (x, y, z) := after.value;
            afterSet := afterSet + {(x + dx, y + dy, z + dz)};
          }
        }
        dz := dz + 1;
      }
      RowStep(before, dx, dx + 1, -pad, dz);
      RowStep(after, dx, dx + 1, -pad, dz);
      dx := dx + 1;
    }
    forall t
      ensures (t in beforeSet <==> t in Disk(before)) && (t in afterSet <==> t in Disk(after))
    {
      if before.Some? {
        DiskMember(before.value, t);
      }
      if after.Some? {
        DiskMember(after.value, t);
      }
    }
  }

  /** A prefix of a prefix is a prefix. */
  lemma PrefixTrans(a: seq<Op>, b: seq<Op>, c: seq<Op>)
    requires |a| <= |b| && b[..|a|] == a
    requires |b| <= |c| && c[..|b|] == b
    ensures |a| <= |c| && c[..|a|] == a
  {
    assert c[..|a|] == c[..|b|][..|a|];
  }

  /** Showing one more sector of a batch adds its exposed blocks to those shown so far. */
  lemma ShowMembers(st0: Store, pre: Store, post: Store, s: Pos, done: set<Pos>)
    requires pre.world == st0.world
    requires forall q :: q in pre.shown <==> q in st0.shown || (q in st0.world && SectorOf(q) in done && Exposed(st0.world, q))
    requires forall q :: q in post.shown <==> q in pre.shown || (q in pre.world && SectorOf(q) == s && Exposed(pre.world, q))
    ensures forall q :: q in post.shown <==> q in st0.shown || (q in st0.world && SectorOf(q) in done + {s} && Exposed(st0.world, q))
  {
  }

  /** Hiding one more sector of a batch takes its blocks out of those shown so far. */
  lemma HideMembers(st1: Store, pre: Store, post: Store, s: Pos, done: set<Pos>)
    requires pre.world == st1.world
    requires forall q :: q in pre.shown <==> q in st1.shown && !(q in st1.world && SectorOf(q) in done)
    requires forall q :: q in post.shown <==> q in pre.shown && !(q in pre.world && SectorOf(q) == s)
    ensures forall q :: q in post.shown <==> q in st1.shown && !(q in st1.world && SectorOf(q) in done + {s})
  {
  }

  lemma ShowUpToStep(st: Store, ps: seq<Pos>, k: nat)
    requires k < |ps|
    ensures ShowUpTo(st, ps, k + 1) == ShowStep(ShowUpTo(st, ps, k), ps[k])
  {
  }

  lemma HideUpToStep(st: Store, ps: seq<Pos>, k: nat)
    requires k < |ps|
    ensures HideUpTo(st, ps, k + 1) == HideStep(HideUpTo(st, ps, k), ps[k])
  {
  }

  // ---------------------------------------------------------------- player motion

  /**
   One motion step of `dt` seconds of a player in `world`: the position
   displaced as PlayerState.Displacement says and corrected by collisions,
   and the vertical velocity afterwards (0 when a vertical face stopped it).
   */
  function Move(world: map<Pos, Block>, flying: bool, ascend: bool, descend: bool, speed: int, dt: real, motion: Vec,
                s: (Vec, real)): (Vec, real)
  {
    var result := Collision.Collide(world, Translate(s.0, Displacement(flying, ascend, descend, s.1, dt, speed, motion)), PLAYER_HEIGHT);
    (result.0, if result.1 then 0.0 else if flying then s.1 else Fallen(s.1, dt))
  }

  /** `n` motion steps one after the other. */
  function Moves(n: nat, world: map<Pos, Block>, flying: bool, ascend: bool, descend: bool, speed: int, dt: real,
                 motion: Vec, s: (Vec, real)): (Vec, real)
  {
    if n == 0 then s else Move(world, flying, ascend, descend, speed, dt, motion, Moves(n - 1, world, flying, ascend, descend, speed, dt, motion, s))
  }

  /** The vertical velocity never drops below terminal velocity, however many steps are taken. */
  lemma {:induction false} MovesKeepTerminalVelocity(n: nat, world: map<Pos, Block>, flying: bool, ascend: bool, descend: bool,
                                                     speed: int, dt: real, motion: Vec, s: (Vec, real))
    requires s.1 >= -MAX_FALL_SPEED
    ensures Moves(n, world, flying, ascend, descend, speed, dt, motion, s).1 >= -MAX_FALL_SPEED
  {
    if n > 0 {
      MovesKeepTerminalVelocity(n - 1, world, flying, ascend, descend, speed, dt, motion, s);
    }
  }

  /** A player hovering in flight (no vertical key, or both) without horizontal motion stays where it is in an empty world. */
  lemma {:induction false} HoverStaysPut(n: nat, ascend: bool, descend: bool, speed: int, dt: real, s: (Vec, real))
    requires ascend == descend
    ensures Moves(n, map[], true, ascend, descend, speed, dt, (0.0, 0.0, 0.0), s) == s
  {
    if n > 0 {
      HoverStaysPut(n - 1, ascend, descend, speed, dt, s);
      DisplacementAtRest(true, ascend, descend, s.1, dt, speed);
      var p := Translate(s.0, (0.0, 0.0, 0.0));
      assert p == s.0;
      Collision.CollideEmptyWorld(p, PLAYER_HEIGHT);
    }
  }

  // ---------------------------------------------------------------- generated terrain

  /** The positions of a list of placements. */
  function PositionsOf(ps: seq<Placement>): (r: seq<Pos>)
    ensures |r| == |ps| && forall i :: 0 <= i < |ps| ==> r[i] == ps[i].1
  {
    seq(|ps|, i requires 0 <= i < |ps| => ps[i].1)
  }

  /** The trees planted on `bases`, in order: trunk height 5, standing on each base. */
  function Forest(bases: seq<Pos>): seq<Placement>
  {
    if bases == [] then []
    else
      var b := bases[|bases| - 1];
      Forest(bases[..|bases| - 1]) + SingleTree(b.0, b.1 + 1, b.2, 5)
  }

  /** The trunk cells and the crown cells of a tree with trunk height h standing on (x, y - 1, z), as the tree generator returns them. */
  function TreeCells(x: int, y: int, z: int, h: nat): (seq<Pos>, seq<Pos>)
  {
    (PositionsOf(Trunk(x, y, z, h)), PositionsOf(Crown(x, y + h, z)))
  }

  /** The cells of the trees planted on `bases`, in order: each of trunk height 5, standing on its base. */
  function Groves(bases: seq<Pos>): (r: seq<(seq<Pos>, seq<Pos>)>)
    ensures |r| == |bases| && forall i :: 0 <= i < |bases| ==> r[i] == TreeCells(bases[i].0, bases[i].1 + 1, bases[i].2, 5)
  {
    seq(|bases|, i requires 0 <= i < |bases| => TreeCells(bases[i].0, bases[i].1 + 1, bases[i].2, 5))
  }

  lemma GrovesStep(bases: seq<Pos>, base: Pos)
    ensures Groves(bases + [base]) == Groves(bases) + [TreeCells(base.0, base.1 + 1, base.2, 5)]
  {
  }

  /** Planting one more tree appends its placements to the forest. */
  lemma ForestStep(bases: seq<Pos>, base: Pos)
    ensures Forest(bases + [base]) == Forest(bases) + SingleTree(base.0, base.1 + 1, base.2, 5)
  {
    assert (bases + [base])[..|bases|] == bases;
  }

  /** Each cloud painted in its colour, in order. */
  function Sky(clouds: seq<seq<Pos>>, colours: seq<Block>): seq<Placement>
    requires |colours| == |clouds|
  {
    if clouds == [] then []
    else Sky(clouds[..|clouds| - 1], colours[..|clouds| - 1]) + Paint(colours[|clouds| - 1], clouds[|clouds| - 1])
  }

  lemma {:induction false} SkyMember(clouds: seq<seq<Pos>>, colours: seq<Block>, e: Placement)
    requires |colours| == |clouds| && e in Sky(clouds, colours)
    ensures exists i :: 0 <= i < |clouds| && e.0 == colours[i] && e.1 in clouds[i]
  {
    var n := |clouds|;
    if e in Sky(clouds[..n - 1], colours[..n - 1]) {
      SkyMember(clouds[..n - 1], colours[..n - 1], e);
      var i :| 0 <= i < n - 1 && e.0 == colours[..n - 1][i] && e.1 in clouds[..n - 1][i];
    } else {
      PaintMembers(colours[n - 1], clouds[n - 1], e);
    }
  }

  /** The cells of the cloud of each draw. */
  function CloudPatches(draws: seq<CloudDraw>): (r: seq<seq<Pos>>)
    ensures |r| == |draws|
  {
    seq(|draws|, i requires 0 <= i < |draws| => Patch(draws[i].centerX, draws[i].centerY, draws[i].centerZ, draws[i].s, false))
  }

  /** The colour of the cloud of each draw. */
  function CloudColours(draws: seq<CloudDraw>): (r: seq<Block>)
    ensures |r| == |draws|
  {
    seq(|draws|, i requires 0 <= i < |draws| => draws[i].colour)
  }

  /** The skies of the first i clouds are prefixes of the whole sky. */
  lemma {:induction false} SkyPrefix(clouds: seq<seq<Pos>>, colours: seq<Block>, i: nat)
    requires |colours| == |clouds| && i <= |clouds|
    ensures Sky(clouds[..i], colours[..i]) <= Sky(clouds, colours)
  {
    var n := |clouds|;
    if i < n {
      SkyPrefix(clouds[..n - 1], colours[..n - 1], i);
      assert clouds[..n - 1][..i] == clouds[..i] && colours[..n - 1][..i] == colours[..i];
    } else {
      assert clouds[..i] == clouds && colours[..i] == colours;
    }
  }

  /** In the sky, cloud i follows the clouds before it, each of its cells in its colour. */
  lemma SkyAt(clouds: seq<seq<Pos>>, colours: seq<Block>, i: nat)
    requires |colours| == |clouds| && i < |clouds|
    ensures |Sky(clouds[..i + 1], colours[..i + 1])| == |Sky(clouds[..i], colours[..i])| + |clouds[i]| <= |Sky(clouds, colours)|
    ensures forall j :: 0 <= j < |clouds[i]| ==> Sky(clouds, colours)[|Sky(clouds[..i], colours[..i])| + j] == (colours[i], clouds[i][j])
  {
    SkyPrefix(clouds, colours, i + 1);
    assert clouds[..i + 1][..i] == clouds[..i] && colours[..i + 1][..i] == colours[..i];
    var before := Sky(clouds[..i], colours[..i]);
    assert Sky(clouds[..i + 1], colours[..i + 1]) == before + Paint(colours[i], clouds[i]);
    forall j | 0 <= j < |clouds[i]|
      ensures Sky(clouds, colours)[|before| + j] == (colours[i], clouds[i][j])
    {
      assert Sky(clouds, colours)[|before| + j] == Sky(clouds[..i + 1], colours[..i + 1])[|before| + j];
    }
  }

  /** In the sky, cloud i starts at starts[i], right after cloud i - 1, each of its cells in its colour. */
  lemma SkyStarts(clouds: seq<seq<Pos>>, colours: seq<Block>) returns (starts: seq<nat>)
    requires |colours| == |clouds|
    ensures |starts| == |clouds| + 1 && starts[0] == 0 && starts[|clouds|] == |Sky(clouds, colours)|
    ensures forall i :: 0 <= i < |clouds| ==> starts[i] + |clouds[i]| <= |Sky(clouds, colours)| && starts[i + 1] == starts[i] + |clouds[i]|
    ensures forall i, j :: 0 <= i < |clouds| && 0 <= j < |clouds[i]| ==> Sky(clouds, colours)[starts[i] + j] == (colours[i], clouds[i][j])
  {
    starts := seq(|clouds| + 1, i requires 0 <= i <= |clouds| => |Sky(clouds[..i], colours[..i])|);
    forall i | 0 <= i < |clouds|
      ensures starts[i] + |clouds[i]| <= |Sky(clouds, colours)| && starts[i + 1] == starts[i] + |clouds[i]|
      ensures forall j :: 0 <= j < |clouds[i]| ==> Sky(clouds, colours)[starts[i] + j] == (colours[i], clouds[i][j])
    {
      SkyAt(clouds, colours, i);
    }
    assert clouds[..|clouds|] == clouds && colours[..|clouds|] == colours;
  }

  /**
   Everything the initial world of half-width w places before its trees:
   the base layer, the hills, then the clouds.
   */
  function Landscape(w: int, hillDraws: seq<HillDraw>, cloudDraws: seq<CloudDraw>): seq<Placement>
  {
    BaseLayer(w) + Hills(hillDraws) + Sky(CloudPatches(cloudDraws), CloudColours(cloudDraws))
  }

  /** Hills start at y = -1: no block of a hill drawn from the game's ranges is lower. */
  lemma HillsAboveFloor(w: int, hillDraws: seq<HillDraw>, e: Placement)
    requires forall i :: 0 <= i < |hillDraws| ==> ValidHillDraw(w, hillDraws[i])
    ensures e in Hills(hillDraws) ==> e.1.1 >= -1
  {
    if e in Hills(hillDraws) {
      HillsMember(hillDraws, e);
      var i :| 0 <= i < |hillDraws| && e in HillOf(hillDraws[i]);
      HillInside(w, hillDraws[i], e);
    }
  }

  /** Clouds drawn from the game's ranges float at y = 18 and above. */
  lemma SkyAboveFloor(w: int, cloudDraws: seq<CloudDraw>, e: Placement)
    requires forall i :: 0 <= i < |cloudDraws| ==> ValidCloudDraw(w, cloudDraws[i])
    ensures e in Sky(CloudPatches(cloudDraws), CloudColours(cloudDraws)) ==> e.1.1 >= 18
  {
    var clouds, colours := CloudPatches(cloudDraws), CloudColours(cloudDraws);
    if e in Sky(clouds, colours) {
      SkyMember(clouds, colours, e);
      var i :| 0 <= i < |clouds| && e.0 == colours[i] && e.1 in clouds[i];
      var d := cloudDraws[i];
      PatchMembers(d.centerX, d.centerY, d.centerZ, d.s, false, e.1);
    }
  }

  /**
   Inside the walls, the floor of the landscape (y = -2) holds grass and
   nothing else: the base layer puts grass there, and neither the hills nor
   the clouds reach down to it.
   */
  lemma LandscapeFloor(w: int, hillDraws: seq<HillDraw>, cloudDraws: seq<CloudDraw>, p: Pos)
    requires forall i :: 0 <= i < |hillDraws| ==> ValidHillDraw(w, hillDraws[i])
    requires forall i :: 0 <= i < |cloudDraws| ==> ValidCloudDraw(w, cloudDraws[i])
    requires p.1 == -2 && -w < p.0 < w && -w < p.2 < w
    ensures (GRASS, p) in Landscape(w, hillDraws, cloudDraws)
    ensures forall e :: e in Landscape(w, hillDraws, cloudDraws) && e.1 == p ==> e.0 == GRASS
  {
    BaseLayerMembers(w, GRASS, p);
    forall e | e in Landscape(w, hillDraws, cloudDraws) && e.1 == p
      ensures e.0 == GRASS
    {
      HillsAboveFloor(w, hillDraws, e);
      SkyAboveFloor(w, cloudDraws, e);
      BaseLayerMembers(w, e.0, p);
    }
  }

  /** Where the first n rows of a base layer stand, row x stands right after the rows before it. */
  lemma RowsNext(ps: seq<Placement>, k: nat, w: int, cols: nat, x: int, m: nat, n: nat)
    requires m == x + w && m < n && At(ps, k, BaseRows(GRASS, STONE, w, cols, n))
    ensures At(ps, k + |BaseRows(GRASS, STONE, w, cols, m)|, BaseRow(GRASS, STONE, w, x, cols))
    ensures |BaseRows(GRASS, STONE, w, cols, m + 1)| == |BaseRows(GRASS, STONE, w, cols, m)| + |BaseRow(GRASS, STONE, w, x, cols)|
  {
    var rows, row := BaseRows(GRASS, STONE, w, cols, m), BaseRow(GRASS, STONE, w, x, cols);
    assert BaseRows(GRASS, STONE, w, cols, m + 1) == rows + row;
    BaseRowsPrefix(GRASS, STONE, w, cols, m + 1, n);
    AtSplit(ps, k, rows, row, BaseRows(GRASS, STONE, w, cols, n));
  }

  /** Where the first n columns of row x stand, column z stands right after the columns before it. */
  lemma RowNext(ps: seq<Placement>, k: nat, w: int, x: int, z: int, m: nat, n: nat)
    requires m == z + w && m < n && At(ps, k, BaseRow(GRASS, STONE, w, x, n))
    ensures At(ps, k + |BaseRow(GRASS, STONE, w, x, m)|, BaseColumn(GRASS, STONE, w, x, z))
    ensures |BaseRow(GRASS, STONE, w, x, m + 1)| == |BaseRow(GRASS, STONE, w, x, m)| + |BaseColumn(GRASS, STONE, w, x, z)|
  {
    var row, column := BaseRow(GRASS, STONE, w, x, m), BaseColumn(GRASS, STONE, w, x, z);
    assert BaseRow(GRASS, STONE, w, x, m + 1) == row + column;
    BaseRowPrefix(GRASS, STONE, w, x, m + 1, n);
    AtSplit(ps, k, row, column, BaseRow(GRASS, STONE, w, x, n));
  }

  /** Where the hills of all the draws stand, hill i stands right after the hills before it. */
  lemma HillsNext(ps: seq<Placement>, k: nat, draws: seq<HillDraw>, i: nat)
    requires i < |draws| && At(ps, k, Hills(draws))
    ensures At(ps, k + |Hills(draws[..i])|, HillOf(draws[i]))
    ensures |Hills(draws[..i + 1])| == |Hills(draws[..i])| + |HillOf(draws[i])|
  {
    var pre := draws[..i + 1];
    assert pre[..|pre| - 1] == draws[..i] && pre[|pre| - 1] == draws[i];
    assert Hills(pre) == Hills(draws[..i]) + HillOf(draws[i]);
    HillsPrefix(draws, i + 1);
    AtSplit(ps, k, Hills(draws[..i]), HillOf(draws[i]), Hills(draws));
  }

  /** Where the hills of all the draws stand from index k on, hill i starts at starts[i], right after hill i - 1. */
  lemma HillStarts(ps: seq<Placement>, k: nat, draws: seq<HillDraw>) returns (starts: seq<nat>)
    requires At(ps, k, Hills(draws))
    ensures |starts| == |draws| + 1 && starts[0] == k && starts[|draws|] == k + |Hills(draws)|
    ensures forall i :: 0 <= i <= |draws| ==> starts[i] <= |ps|
    ensures forall i :: 0 <= i < |draws| ==> At(ps, starts[i], HillOf(draws[i])) && starts[i + 1] == starts[i] + |HillOf(draws[i])|
  {
    starts := seq(|draws| + 1, i requires 0 <= i <= |draws| => k + |Hills(draws[..i])|);
    forall i | 0 <= i <= |draws|
      ensures starts[i] <= |ps|
    {
      HillsPrefix(draws, i);
    }
    forall i | 0 <= i < |draws|
      ensures At(ps, starts[i], HillOf(draws[i])) && starts[i + 1] == starts[i] + |HillOf(draws[i])|
    {
      HillsNext(ps, k, draws, i);
    }
    assert draws[..|draws|] == draws;
  }

  /** Where the first n layers of a hill stand, layer m stands right after the layers below it. */
  lemma LayersNext(ps: seq<Placement>, k: nat, t: Block, a: int, b: int, side: int, m: nat, n: nat, y: int, s: int)
    requires m < n && y == -1 + m && s == side - m && At(ps, k, HillLayers(t, a, b, side, n))
    ensures At(ps, k + |HillLayers(t, a, b, side, m)|, Paint(t, Patch(a, y, b, s, true)))
    ensures |HillLayers(t, a, b, side, m + 1)| == |HillLayers(t, a, b, side, m)| + |Paint(t, Patch(a, y, b, s, true))|
  {
    var below, layer := HillLayers(t, a, b, side, m), Paint(t, Patch(a, y, b, s, true));
    assert -1 + (m + 1) - 1 == y && side - (m + 1 - 1) == s;
    assert HillLayers(t, a, b, side, m + 1) == below + layer;
    HillLayersPrefix(t, a, b, side, m + 1, n);
    AtSplit(ps, k, below, layer, HillLayers(t, a, b, side, n));
  }

  /** Where the first n layers of a hill stand from index k on, layer m starts at starts[m], right after layer m - 1. */
  lemma LayerStarts(ps: seq<Placement>, k: nat, t: Block, a: int, b: int, side: int, n: nat) returns (starts: seq<nat>)
    requires At(ps, k, HillLayers(t, a, b, side, n))
    ensures |starts| == n + 1 && starts[0] == k && starts[n] == k + |HillLayers(t, a, b, side, n)|
    ensures forall m :: 0 <= m < n ==>
      At(ps, starts[m], Paint(t, Patch(a, -1 + m, b, side - m, true))) && starts[m + 1] == starts[m] + |Paint(t, Patch(a, -1 + m, b, side - m, true))|
  {
    starts := seq(n + 1, m requires 0 <= m <= n => k + |HillLayers(t, a, b, side, m)|);
    forall m | 0 <= m < n
      ensures At(ps, starts[m], Paint(t, Patch(a, -1 + m, b, side - m, true))) && starts[m + 1] == starts[m] + |Paint(t, Patch(a, -1 + m, b, side - m, true))|
    {
      LayersNext(ps, k, t, a, b, side, m, n, -1 + m, side - m);
    }
  }

  /** Where the first n strips of a hill layer stand, strip x stands right after the strips before it. */
  lemma StripsNext(ps: seq<Placement>, k: nat, t: Block, a: int, y: int, b: int, s: int, cols: nat, x: int, m: nat, n: nat)
    requires m == x - (a - s) && m < n && At(ps, k, Paint(t, PatchRows(a, y, b, s, true, cols, n)))
    ensures At(ps, k + |PatchRows(a, y, b, s, true, cols, m)|, Paint(t, PatchStrip(a, y, b, s, true, x, cols)))
    ensures |PatchRows(a, y, b, s, true, cols, m + 1)| == |PatchRows(a, y, b, s, true, cols, m)| + |PatchStrip(a, y, b, s, true, x, cols)|
  {
    var rows, strip := PatchRows(a, y, b, s, true, cols, m), PatchStrip(a, y, b, s, true, x, cols);
    assert PatchRows(a, y, b, s, true, cols, m + 1) == rows + strip;
    PatchRowsPrefix(a, y, b, s, true, cols, m + 1, n);
    PaintPrefix(t, rows + strip, PatchRows(a, y, b, s, true, cols, n));
    PaintAppend(t, rows, strip);
    AtSplit(ps, k, Paint(t, rows), Paint(t, strip), Paint(t, PatchRows(a, y, b, s, true, cols, n)));
  }

  /** Where the first n strips of a hill layer stand from index k on, strip m starts at starts[m], right after strip m - 1. */
  lemma StripStarts(ps: seq<Placement>, k: nat, t: Block, a: int, y: int, b: int, s: int, cols: nat, n: nat) returns (starts: seq<nat>)
    requires At(ps, k, Paint(t, PatchRows(a, y, b, s, true, cols, n)))
    ensures |starts| == n + 1 && starts[0] == k && starts[n] == k + |PatchRows(a, y, b, s, true, cols, n)|
    ensures forall m :: 0 <= m < n ==>
      At(ps, starts[m], Paint(t, PatchStrip(a, y, b, s, true, a - s + m, cols))) && starts[m + 1] == starts[m] + |PatchStrip(a, y, b, s, true, a - s + m, cols)|
  {
    starts := seq(n + 1, m requires 0 <= m <= n => k + |PatchRows(a, y, b, s, true, cols, m)|);
    forall m | 0 <= m < n
      ensures At(ps, starts[m], Paint(t, PatchStrip(a, y, b, s, true, a - s + m, cols))) && starts[m + 1] == starts[m] + |PatchStrip(a, y, b, s, true, a - s + m, cols)|
    {
      StripsNext(ps, k, t, a, y, b, s, cols, a - s + m, m, n);
    }
  }

  /**
   Where the kept cells among the first n of strip x of a hill layer stand,
   the cell at z comes right after the kept cells before it, if it is kept.
   */
  lemma CellNext(ps: seq<Placement>, k: nat, t: Block, a: int, y: int, b: int, s: int, x: int, z: int, m: nat, n: nat)
    requires m == z - (b - s) && m < n && At(ps, k, Paint(t, PatchStrip(a, y, b, s, true, x, n)))
    ensures InPatch(a, b, s, true, x, z) ==>
      k + |PatchStrip(a, y, b, s, true, x, m)| < |ps| && ps[k + |PatchStrip(a, y, b, s, true, x, m)|] == (t, (x, y, z))
    ensures |PatchStrip(a, y, b, s, true, x, m + 1)| == |PatchStrip(a, y, b, s, true, x, m)| + (if InPatch(a, b, s, true, x, z) then 1 else 0)
  {
    var strip := PatchStrip(a, y, b, s, true, x, m);
    if InPatch(a, b, s, true, x, z) {
      assert PatchStrip(a, y, b, s, true, x, m + 1) == strip + [(x, y, z)];
      PatchStripPrefix(a, y, b, s, true, x, m + 1, n);
      PaintPrefix(t, strip + [(x, y, z)], PatchStrip(a, y, b, s, true, x, n));
      PaintAppend(t, strip, [(x, y, z)]);
      AtSplit(ps, k, Paint(t, strip), [(t, (x, y, z))], Paint(t, PatchStrip(a, y, b, s, true, x, n)));
      AtFirst(ps, k + |strip|, [(t, (x, y, z))]);
    }
  }

  /** Placements 0 .. h - 1 of `ps` are the cells of a trunk of height h standing at (x, y, z), bottom up. */
  predicate TrunkAt(ps: seq<Placement>, x: int, y: int, z: int, h: nat)
  {
    h <= |ps| && forall k :: 0 <= k < h ==> ps[k] == (TREE_TRUNK, (x, y + k, z))
  }

  /** Placements k0 .. k0 + 74 of `ps` are the leaves of a crown at height `top`, in scan order. */
  predicate CrownAt(ps: seq<Placement>, k0: nat, x: int, top: int, z: int)
  {
    k0 + 75 <= |ps| && forall k :: k0 <= k < k0 + 75 ==> ps[k] == Leaf(x, top, z, k - k0)
  }

  /** A tree lists its trunk cells bottom up, then the 75 leaves of its crown. */
  lemma SingleTreeLayout(x: int, y: int, z: int, h: nat)
    ensures |SingleTree(x, y, z, h)| == h + 75 && SingleTree(x, y, z, h)[..h + 75] == SingleTree(x, y, z, h)
    ensures SingleTree(x, y, z, h)[..0] == [] && SingleTree(x, y, z, h)[h..h + 75] == Crown(x, y + h, z)
    ensures TrunkAt(SingleTree(x, y, z, h), x, y, z, h)
  {
    assert SingleTree(x, y, z, h)[h..h + 75] == Crown(x, y + h, z);
  }

  /** A crown found at placements k0 .. k0 + 74 of `ps` has leaf i of it at placement k0 + i. */
  lemma CrownLeaves(ps: seq<Placement>, k0: nat, x: int, top: int, z: int)
    requires k0 + 75 <= |ps| && ps[k0..k0 + 75] == Crown(x, top, z)
    ensures CrownAt(ps, k0, x, top, z)
  {
    forall k | k0 <= k < k0 + 75
      ensures ps[k] == Leaf(x, top, z, k - k0)
    {
      assert ps[k] == ps[k0..k0 + 75][k - k0];
    }
  }

  /**
   The leaves of a crown at offsets dx and dy, read off placements k0 .. k0 + 74:
   the five of them run along z from z - 2 to z + 2.
   */
  lemma LeafRun(ps: seq<Placement>, k0: nat, x: int, top: int, z: int, dx: int, dy: int)
    requires -2 <= dx < 3 && 0 <= dy < 3 && CrownAt(ps, k0, x, top, z)
    ensures forall k :: k0 + 15 * (dx + 2) + 5 * dy <= k < k0 + 15 * (dx + 2) + 5 * dy + 5 ==>
      ps[k] == (TREE_LEAVES, (x + dx, top + dy, z + k - (k0 + 15 * (dx + 2) + 5 * dy) - 2))
  {
    forall k | k0 + 15 * (dx + 2) + 5 * dy <= k < k0 + 15 * (dx + 2) + 5 * dy + 5
      ensures ps[k] == (TREE_LEAVES, (x + dx, top + dy, z + k - (k0 + 15 * (dx + 2) + 5 * dy) - 2))
    {
      LeafIndex(dx + 2, dy, k - k0 - 15 * (dx + 2) - 5 * dy);
    }
  }

  /** Extending a run of placements by one extends its positions by that placement's position. */
  lemma PositionsStep(ps: seq<Placement>, lo: nat, hi: nat)
    requires lo <= hi < |ps|
    ensures PositionsOf(ps[lo..hi]) + [ps[hi].1] == PositionsOf(ps[lo..hi + 1])
  {
    assert ps[lo..hi + 1] == ps[lo..hi] + [ps[hi]];
  }

  lemma TrunkStep(x: int, y: int, z: int, h: nat)
    ensures PositionsOf(Trunk(x, y, z, h)) + [(x, y + h, z)] == PositionsOf(Trunk(x, y, z, h + 1))
  {
    assert PositionsOf(Trunk(x, y, z, h)) + [(x, y + h, z)] == PositionsOf(Trunk(x, y, z, h + 1)) by {
      var a, c := PositionsOf(Trunk(x, y, z, h)) + [(x, y + h, z)], PositionsOf(Trunk(x, y, z, h + 1));
      assert |a| == |c|;
      forall k | 0 <= k < |a| ensures a[k] == c[k] {
      }
    }
  }

  // ---------------------------------------------------------------- the model

  class Model {
    var world: map<Pos, Block>
    var shown: map<Pos, Block>
    /** The renderer's data for each drawn block. */
    var handles: map<Pos, Mesh>
    var sectors: map<Pos, seq<Pos>>
    /** Deferred drawing operations, oldest first. */
    var queue: seq<Op>
    /** The sector the player was in at the last update; None before the first. */
    var sector: Option<Pos>
    var player: Player

    /** The store the fields make up. */
    ghost function State(): Store
      reads this
    {
      Store(world, shown, handles, sectors, queue)
    }

    /** The sector index is exact and the player is well formed. */
    ghost predicate Valid()
      reads this, player
    {
      SectorIndexed(State()) && player.Valid()
    }

    /** A model without blocks; the terrain is placed by Initialize. */
    constructor ()
      ensures Valid() && fresh(player)
      ensures State() == EMPTY && sector == None
    {
      world := map[];
      shown := map[];
      handles := map[];
      sectors := map[];
      queue := [];
      sector := None;
      player := new Player();
    }

    // -------------------------------------------------------------- exposure

    method Exposed(position: Pos) returns (b: bool)
      ensures b == WorldStore.Exposed(world, position)
    {
      var (x, y, z) := position;
      var k := 0;
      while k < |FACES|
        invariant 0 <= k <= 6
        invariant forall j :: 0 <= j < k ==> Neighbor(position, j) in world
      {
        var (dx, dy, dz) := FACES[k];
        if (x + dx, y + dy, z + dz) !in world {
          assert (x + dx, y + dy, z + dz) == Neighbor(position, k);
          return true;
        }
        k := k + 1;
      }
      return false;
    }

    // -------------------------------------------------------------- drawing

    /** Drawing a block now: the renderer holds a unit cube at the position with the block's texture. */
    method DrawBlock(position: Pos, block: Block)
      modifies this`handles
      ensures handles == old(handles)[position := MeshFor(position, block)]
    {
      var (x, y, z) := position;
      var vertexData := CubeVertices(x as real, y as real, z as real, 0.5);
      var textureData := block.textureCoordinates();
      handles := handles[position := Mesh(vertexData, textureData)];
    }

    /** Erasing the drawing at a position, which must exist. */
    method EraseBlock(position: Pos)
      requires position in handles
      modifies this`handles
      ensures handles == old(handles) - {position}
    {
      handles := handles - {position};
    }

    method Enqueue(op: Op)
      modifies this`queue
      ensures queue == old(queue) + [op]
    {
      queue := queue + [op];
    }

    method ShowBlock(position: Pos, immediate: bool)
      modifies this`shown, this`handles, this`queue
      ensures State() == AfterShow(old(State()), position, immediate)
    {
      if position !in world {
        return;
      }
      var block := world[position];
      shown := shown[position := block];
      if immediate {
        DrawBlock(position, block);
      } else {
        Enqueue(ShowOp(position, block));
      }
    }

    method HideBlock(position: Pos, immediate: bool)
      requires position in shown && (immediate ==> position in handles)
      modifies this`shown, this`handles, this`queue
      ensures State() == AfterHide(old(State()), position, immediate)
    {
      shown := shown - {position};
      if immediate {
        EraseBlock(position);
      } else {
        Enqueue(HideOp(position));
      }
    }

    // -------------------------------------------------------------- neighbours, adding, removing

    method CheckNeighbors(position: Pos)
      requires forall j :: 0 <= j < 6 ==> HideSafe(State(), Neighbor(position, j))
      modifies this`shown, this`handles, this`queue
      ensures State() == SettleFaces(old(State()), position, 6)
    {
      ghost var steps := SettleSteps(State(), position);
      var k := 0;
      while k < |FACES|
        invariant 0 <= k <= 6
        invariant State() == steps[k]
      {
        var key := Neighbor(position, k);
        assert HideSafe(steps[k], key);
        SettleBlock(key);
        k := k + 1;
      }
    }

    /** One pass of the loop of check_neighbors: the block at `key` shown exactly when it is exposed. */
    method SettleBlock(key: Pos)
      requires HideSafe(State(), key)
      modifies this`shown, this`handles, this`queue
      ensures State() == Settle(old(State()), key)
    {
      if key in world {
        var e := Exposed(key);
        if e {
          if key !in shown {
            ShowBlock(key, true);
          }
        } else if key in shown {
          HideBlock(key, true);
        }
      }
    }

    method RemoveBlock(position: Pos, immediate: bool)
      requires RemoveReady(State(), position, immediate)
      modifies this`world, this`shown, this`handles, this`sectors, this`queue
      ensures State() == AfterRemove(old(State()), position, immediate)
    {
      world := world - {position};
      var s := SectorOf(position);
      sectors := sectors[s := RemoveFirst(sectors[s], position)];
      if immediate {
        if position in shown {
          HideBlock(position, true);
        }
        ExposedNextToEmpty(world, position);
        CheckNeighbors(position);
      }
    }

    method AddBlock(position: Pos, block: Block, immediate: bool)
      requires AddReady(State(), position, block, immediate)
      modifies this`world, this`shown, this`handles, this`sectors, this`queue
      ensures State() == AfterAdd(old(State()), position, block, immediate)
    {
      if position in world {
        RemoveBlock(position, immediate);
      }
      world := world[position := block];
      var s := SectorOf(position);
      sectors := sectors[s := ListOf(sectors, s) + [position]];
      ghost var placed := State();
      assert placed == Placed(old(State()), position, block, immediate);
      if immediate {
        var e := Exposed(position);
        if e {
          ShowBlock(position, true);
        }
        AddSettleReady(old(State()), position, block, placed, State());
        CheckNeighbors(position);
      }
    }

    // -------------------------------------------------------------- sectors

    /** One step of showing a sector: queue the drawing of a block not yet shown that is exposed. */
    method ShowIfExposed(position: Pos)
      modifies this`shown, this`handles, this`queue
      ensures State() == ShowStep(old(State()), position)
    {
      if position !in shown {
        var e := Exposed(position);
        if e {
          ShowBlock(position, false);
        }
      }
    }

    method ShowSector(s: Pos)
      modifies this`shown, this`handles, this`queue
      ensures State() == AfterShowSector(old(State()), s)
    {
      var positions := ListOf(sectors, s);
      var i := 0;
      while i < |positions|
        invariant 0 <= i <= |positions|
        invariant State() == ShowUpTo(old(State()), positions, i)
      {
        ShowIfExposed(positions[i]);
        ShowUpToStep(old(State()), positions, i);
        i := i + 1;
      }
    }

    method HideSector(s: Pos)
      modifies this`shown, this`handles, this`queue
      ensures State() == AfterHideSector(old(State()), s)
    {
      var positions := ListOf(sectors, s);
      var i := 0;
      while i < |positions|
        invariant 0 <= i <= |positions|
        invariant State() == HideUpTo(old(State()), positions, i)
      {
        ghost var pre := State();
        var position := positions[i];
        if position in shown {
          HideBlock(position, false);
        }
        assert State() == HideStep(pre, position);
        HideUpToStep(old(State()), positions, i);
        i := i + 1;
      }
    }

    /** Showing each sector of a set, in an order the model does not fix. */
    method ShowSectors(toShow: set<Pos>)
      requires SectorIndexed(State())
      modifies this`shown, this`handles, this`queue
      ensures world == old(world) && sectors == old(sectors) && handles == old(handles)
      ensures forall q :: q in shown <==>
        q in old(shown) || (q in world && SectorOf(q) in toShow && WorldStore.Exposed(world, q))
      ensures |old(queue)| <= |queue| && queue[..|old(queue)|] == old(queue)
      ensures Rendered(old(State())) ==> Rendered(State())
      ensures toShow == {} ==> State() == old(State())
    {
      var todo := toShow;
      ghost var done: set<Pos> := {};
      while todo != {}
        invariant todo <= toShow && done == toShow - todo
        invariant world == old(world) && sectors == old(sectors) && handles == old(handles)
        invariant forall q :: q in shown <==>
          q in old(shown) || (q in world && SectorOf(q) in done && WorldStore.Exposed(world, q))
        invariant |old(queue)| <= |queue| && queue[..|old(queue)|] == old(queue)
        invariant Rendered(old(State())) ==> Rendered(State())
        invariant todo == toShow ==> State() == old(State())
        decreases |todo|
      {
        var s :| s in todo;
        ghost var pre := State();
        SectorShowHide(pre, s);
        ShowSector(s);
        ShowMembers(old(State()), pre, State(), s, done);
        PrefixTrans(old(queue), pre.queue, queue);
        todo := todo - {s};
        done := done + {s};
      }
    }

    /** Hiding each sector of a set, in an order the model does not fix. */
    method HideSectors(toHide: set<Pos>)
      requires SectorIndexed(State())
      modifies this`shown, this`handles, this`queue
      ensures world == old(world) && sectors == old(sectors) && handles == old(handles)
      ensures forall q :: q in shown <==> q in old(shown) && !(q in world && SectorOf(q) in toHide)
      ensures |old(queue)| <= |queue| && queue[..|old(queue)|] == old(queue)
      ensures Rendered(old(State())) ==> Rendered(State())
      ensures toHide == {} ==> State() == old(State())
    {
      var todo := toHide;
      ghost var done: set<Pos> := {};
      while todo != {}
        invariant todo <= toHide && done == toHide - todo
        invariant world == old(world) && sectors == old(sectors) && handles == old(handles)
        invariant forall q :: q in shown <==> q in old(shown) && !(q in world && SectorOf(q) in done)
        invariant |old(queue)| <= |queue| && queue[..|old(queue)|] == old(queue)
        invariant Rendered(old(State())) ==> Rendered(State())
        invariant todo == toHide ==> State() == old(State())
        decreases |todo|
      {
        var s :| s in todo;
        ghost var pre := State();
        SectorShowHide(pre, s);
        HideSector(s);
        HideMembers(old(State()), pre, State(), s, done);
        PrefixTrans(old(queue), pre.queue, queue);
        todo := todo - {s};
        done := done + {s};
      }
    }

    /**
     Moving from sector `before` to sector `after`: the sectors entering the
     disk are shown, then those leaving it are hidden.
     */
    method ChangeSectors(before: Option<Pos>, after: Option<Pos>)
      requires SectorIndexed(State())
      modifies this`shown, this`handles, this`queue
      ensures SectorsChanged(old(State()), State(), before, after)
      ensures before == after ==> State() == old(State())
    {
      var beforeSet, afterSet := NearbySectors(before, after);
      var toShow := afterSet - beforeSet;
      var toHide := beforeSet - afterSet;
      ghost var st0 := State();
      ShowSectors(toShow);
      ghost var st1 := State();
      HideSectors(toHide);
      PrefixTrans(st0.queue, st1.queue, queue);
    }

    // -------------------------------------------------------------- the queue

    method Dequeue()
      requires HeadRunnable(State())
      modifies this`handles, this`queue
      ensures State() == AfterDequeue(old(State()))
    {
      var op := queue[0];
      queue := queue[1..];
      match op {
        case ShowOp(p, b) => DrawBlock(p, b);
        case HideOp(p) => EraseBlock(p);
      }
    }

    /**
     Processing the queue with a budget: the source stops after 1/60 of a
     second of wall-clock time; here the budget is the number of operations
     that fit in that time.
     */
    method ProcessQueue(budget: nat)
      requires Runnable(handles, queue)
      modifies this`handles, this`queue
      ensures State() == AfterRun(old(State()), budget)
    {
      var steps := 0;
      while queue != [] && steps < budget
        invariant 0 <= steps <= budget
        invariant Runnable(handles, queue)
        invariant AfterRun(State(), budget - steps) == AfterRun(old(State()), budget)
      {
        Dequeue();
        steps := steps + 1;
      }
    }

    method ProcessEntireQueue()
      requires Runnable(handles, queue)
      modifies this`handles, this`queue
      ensures State() == AfterRun(old(State()), |old(queue)|)
      ensures queue == []
      ensures Rendered(old(State())) ==> Drained(State())
    {
      while queue != []
        invariant Runnable(handles, queue)
        invariant AfterRun(State(), |queue|) == AfterRun(old(State()), |old(queue)|)
        decreases |queue|
      {
        Dequeue();
      }
      if Rendered(old(State())) {
        RunAllDrains(old(State()), |old(queue)|);
      }
    }

    // -------------------------------------------------------------- looking and colliding

    method HitTest(position: Vec, vector: Vec, maxDistance: int := Collision.MAX_DISTANCE)
      returns (hit: Option<Pos>, previous: Option<Pos>)
      ensures (hit, previous) == Collision.HitTest(world, position, vector, maxDistance)
    {
      var m := 8;
      var (x, y, z) := position;
      var (dx, dy, dz) := vector;
      previous := None;
      ghost var total := if maxDistance > 0 then maxDistance * m else 0;
      var i := 0;
      while i < maxDistance * m
        invariant 0 <= i <= total
        invariant previous.Some? ==> previous.value !in world
        invariant Collision.March(world, (x, y, z), vector, total - i, previous) ==
          Collision.HitTest(world, position, vector, maxDistance)
      {
        var key := Normalize((x, y, z));
        if Some(key) != previous && key in world {
          return Some(key), previous;
        }
        previous := Some(key);
        x, y, z := x + dx / m as real, y + dy / m as real, z + dz / m as real;
        i := i + 1;
      }
      return None, None;
    }

    method CanPassThroughBlock(c: Pos) returns (b: bool)
      ensures b == Collision.CanPassThrough(world, c)
    {
      if c !in world {
        return true;
      }
      var block := world[c];
      return !block.isCollidable;
    }

    /**
     One check of collide: face `k` of the player's block `np`, along axis
     `i`, pushing the point `p` back when a block stops it there; `reset`
     tells whether that stop was against a floor or a ceiling.
     */
    method CheckFace(p: Vec, np: Pos, k: int, i: int, height: int) returns (q: Vec, reset: bool)
      requires 0 <= k < 6 && 0 <= i < 3
      ensures (q, reset) == Collision.FaceCheck(world, p, np, k, i, height)
    {
      var pad := Collision.PAD;
      q, reset := p, false;
      var face := FACES[k];
      var f := Axis(face, i);
      if f == 0 {
        return;
      }
      var d := Collision.Signed(Collision.Coord(p, i) - Axis(np, i) as real, f);
      if d < pad {
        return;
      }
      var dy := 0;
      while dy < height
        invariant 0 <= dy
        invariant forall e :: 0 <= e < dy ==> Collision.CanPassThrough(world, Collision.TestedCell(np, k, i, e))
      {
        var c := (np.0, np.1 - dy, np.2);
        c := Collision.WithAxis(c, i, Axis(c, i) + f);
        assert c == Collision.TestedCell(np, k, i, dy);
        var pass := CanPassThroughBlock(c);
        if !pass {
          assert Collision.Blocked(world, np, k, i, height);
          assert Collision.Corrects(world, p, np, k, i, height);
          assert (face == (0, -1, 0) || face == (0, 1, 0)) <==> (k == 0 || k == 1);
          q := Collision.WithCoord(p, i, Collision.Coord(p, i) - Collision.Signed(d - pad, f));
          reset := face == (0, -1, 0) || face == (0, 1, 0);
          return;
        }
        dy := dy + 1;
      }
      assert !Collision.Blocked(world, np, k, i, height);
    }

    /**
     Where the player trying to be at `position`, `height` blocks tall, ends
     up; the player's vertical velocity is set to 0 when a floor or ceiling
     stops it.
     */
    method Collide(position: Vec, height: int) returns (p: Vec)
      modifies player`dy
      ensures p == Collision.Collide(world, position, height).0
      ensures player.dy == if Collision.Collide(world, position, height).1 then 0.0 else old(player.dy)
    {
      var stopped;
      p, stopped := CheckFaces(position, height);
      if stopped {
        player.dy := 0.0;
      }
    }

    /**
     The two loops of collide: every face, axis by axis, pushing the point
     back out of the blocks that stop it; `stopped` tells whether a floor or
     a ceiling did.
     */
    method CheckFaces(position: Vec, height: int) returns (p: Vec, stopped: bool)
      ensures (p, stopped) == Collision.Collide(world, position, height)
    {
      p, stopped := position, false;
      var np := Normalize(position);
      var k := 0;
      while k < |FACES|
        invariant 0 <= k <= 6
        invariant (p, stopped) == Collision.FacesUpTo(world, position, np, height, k)
      {
        ghost var start := (p, stopped);
        var i := 0;
        while i < 3
          invariant 0 <= i <= 3
          invariant (p, stopped) == Collision.AxesUpTo(world, start, np, height, k, i)
        {
          var q, reset := CheckFace(p, np, k, i, height);
          p, stopped := q, stopped || reset;
          i := i + 1;
        }
        k := k + 1;
      }
    }

    // -------------------------------------------------------------- the player's actions

    /** Breaking the block in sight, when there is one and it is breakable. */
    method HandlePrimaryAction(sight: Vec)
      requires Valid()
      requires var h := Collision.HitTest(world, player.position, sight);
        h.0.Some? && world[h.0.value].isBreakable && h.0.value in shown ==> h.0.value in handles
      modifies this`world, this`shown, this`handles, this`sectors, this`queue
      ensures Valid()
      ensures var h := Collision.HitTest(old(world), player.position, sight);
        if h.0.Some? && old(world)[h.0.value].isBreakable then State() == AfterRemove(old(State()), h.0.value, true)
        else State() == old(State())
    {
      var position, _ := HitTest(player.position, sight);
      if position.Some? && world[position.value].isBreakable {
        RemoveReadyIndexed(State(), position.value, true);
        IndexAfterUnrecord(world, sectors, position.value);
        RemoveBlock(position.value, true);
      }
    }

    /** Placing the active block in front of the block in sight, when that block can be built on. */
    method HandleSecondaryAction(sight: Vec)
      requires Valid()
      requires var h := Collision.HitTest(world, player.position, sight);
        h.1.Some? && h.0.Some? && world[h.0.value].canBuildOn ==> AddReady(State(), h.1.value, player.block, true)
      modifies this`world, this`shown, this`handles, this`sectors, this`queue
      ensures Valid()
      ensures var h := Collision.HitTest(old(world), player.position, sight);
        if h.1.Some? && h.0.Some? && old(world)[h.0.value].canBuildOn then
          State() == AfterAdd(old(State()), h.1.value, player.block, true)
        else State() == old(State())
    {
      var position, previous := HitTest(player.position, sight);
      if previous.Some? && position.Some? && world[position.value].canBuildOn {
        AddKeepsIndex(State(), previous.value, player.block, true);
        AddBlock(previous.value, player.block, true);
      }
    }

    method HandleAdjustVision(dx: int, dy: int)
      modifies player`rotation
      ensures player.rotation == Turned(old(player.rotation), dx, dy)
    {
      player.AdjustSight(dx, dy);
    }

    method HandleChangeActiveBlock(index: int)
      requires player.Valid()
      modifies player`block
      ensures player.block == Selected(player.inventory, index)
    {
      player.SelectActiveItem(index);
    }

    method HandleSpeedChange(increase: bool)
      modifies player`walkingSpeed
      ensures player.walkingSpeed == if increase then Faster(old(player.walkingSpeed)) else Slower(old(player.walkingSpeed))
    {
      if increase {
        player.SpeedUp();
      } else {
        player.SpeedDown();
      }
    }

    method HandleJump()
      modifies player`dy
      ensures player.dy == Jumped(old(player.dy))
    {
      player.Jump();
    }

    method HandleFlightToggle()
      modifies player`flying
      ensures player.flying == !old(player.flying)
    {
      player.ToggleFlight();
    }

    /** One tri-state movement input for one direction: 0 does nothing, 1 starts moving, anything else stops. */
    method SteerOne(d: Direction, input: int)
      requires player.Valid()
      modifies player`strafe
      ensures player.Valid() && player.strafe == Steered(old(player.strafe), d, input)
    {
      if input != 0 {
        if input == 1 {
          match d {
            case Forward => player.MoveForward();
            case Backward => player.MoveBackward();
            case Left => player.MoveLeft();
            case Right => player.MoveRight();
          }
        } else {
          match d {
            case Forward => player.StopForward();
            case Backward => player.StopBackward();
            case Left => player.StopLeft();
            case Right => player.StopRight();
          }
        }
      }
    }

    method HandleMovement(forward: int, backward: int, left: int, right: int)
      requires player.Valid()
      modifies player`strafe
      ensures player.Valid()
      ensures player.strafe == SteeredAll(old(player.strafe), forward, backward, left, right)
    {
      SteerOne(Forward, forward);
      SteerOne(Backward, backward);
      SteerOne(Left, left);
      SteerOne(Right, right);
    }

    /** A non-zero ascend input decides the ascend flag; only otherwise does the descend input decide the descend flag. */
    method HandleFlight(ascending: int, descending: int)
      modifies player`ascend, player`descend
      ensures player.ascend == if ascending != 0 then ascending == 1 else old(player.ascend)
      ensures player.descend == if ascending == 0 && descending != 0 then descending == 1 else old(player.descend)
    {
      if ascending != 0 {
        player.ascend := ascending == 1;
      } else if descending != 0 {
        player.descend := descending == 1;
      }
    }

    // -------------------------------------------------------------- the tick

    /**
     The rendering half of a tick: the queue is processed within `budget`
     operations; on entering a new sector the sectors around it are shown
     and those left behind hidden, and on the very first tick (no sector
     yet) the whole queue is drawn at once.
     */
    method UpdateSectors(budget: nat)
      requires Valid() && Rendered(State())
      modifies this`shown, this`handles, this`queue, this`sector
      ensures Valid() && Rendered(State())
      ensures world == old(world) && sectors == old(sectors)
      ensures sector == Some(Sectorize(player.position))
      ensures old(sector) == sector ==> State() == AfterRun(old(State()), budget)
      ensures old(sector) != sector ==> forall q :: q in shown <==>
        (q in old(shown) && !(q in world && SectorOf(q) in Disk(old(sector)) - Disk(sector))) ||
        (q in world && SectorOf(q) in Disk(sector) - Disk(old(sector)) && WorldStore.Exposed(world, q))
      ensures old(sector).None? ==> Drained(State())
    {
      ProcessQueue(budget);
      RunKeepsRendered(old(State()), budget);
      AfterRunPrefix(old(State()), budget);
      var s := Sectorize(player.position);
      if Some(s) != sector {
        ghost var st1 := State();
        ChangeSectors(sector, Some(s));
        if sector == None {
          ghost var st2 := State();
          AfterRunPrefix(st2, |queue|);
          ProcessEntireQueue();
          DrainedRendered(State());
        }
        sector := Some(s);
      }
    }

    /**
     The motion half of a tick: eight steps of `dt` seconds each move the
     player along `motion`, each stopped by collisions with the world.
     */
    method MovePlayer(dt: real, motion: Vec)
      modifies player`position, player`dy
      ensures (player.position, player.dy) ==
        Moves(8, world, player.flying, player.ascend, player.descend, player.CurrentSpeed(), dt, motion,
              (old(player.position), old(player.dy)))
    {
      var w := world;
      var checker := (q: Vec, h: int) => Collision.Collide(w, q, h);
      var n := 0;
      while n < 8
        invariant 0 <= n <= 8
        invariant (player.position, player.dy) ==
          Moves(n, w, player.flying, player.ascend, player.descend, player.CurrentSpeed(), dt, motion,
                (old(player.position), old(player.dy)))
      {
        player.Update(dt, motion, checker);
        n := n + 1;
      }
    }

    /**
     One tick of `dt` seconds: the sectors and queue are brought up to date,
     the player is kept inside the walls, and eight motion steps of
     min(dt, 0.2) / 8 seconds move the player.
     */
    method Update(dt: real, budget: nat, motion: Vec)
      requires Valid() && Rendered(State())
      modifies this`shown, this`handles, this`queue, this`sector, player`position, player`dy
      ensures Valid() && Rendered(State())
      ensures world == old(world) && sectors == old(sectors)
      ensures sector == Some(Sectorize(old(player.position)))
      ensures old(sector) == sector ==> State() == AfterRun(old(State()), budget)
      ensures old(sector) != sector ==> forall q :: q in shown <==>
        (q in old(shown) && !(q in world && SectorOf(q) in Disk(old(sector)) - Disk(sector))) ||
        (q in world && SectorOf(q) in Disk(sector) - Disk(old(sector)) && WorldStore.Exposed(world, q))
      ensures old(sector).None? ==> Drained(State())
      ensures (player.position, player.dy) ==
        Moves(8, world, player.flying, player.ascend, player.descend, player.CurrentSpeed(), Min(dt, 0.2) / 8.0, motion,
              (WithinWorld(old(player.position)), old(player.dy)))
    {
      UpdateSectors(budget);
      player.CheckPlayerWithinWorldBoundaries();
      MovePlayer(Min(dt, 0.2) / 8.0, motion);
    }

    // -------------------------------------------------------------- building the initial world

    /**
     Adds `block` at `position` without drawing it, as placement i of `ps`
     after the placements before it: the form every generator loop of the
     model adds its blocks in.
     */
    method AddNext(position: Pos, block: Block, ghost stores: seq<Store>, ghost ps: seq<Placement>, ghost i: nat)
      requires StepsAlong(stores, ps) && i < |ps| && ps[i] == (block, position) && State() == stores[i]
      modifies this`world, this`shown, this`handles, this`sectors, this`queue
      ensures State() == stores[i + 1]
    {
      assert AddReady(stores[i], ps[i].1, ps[i].0, false) && AfterAdd(stores[i], ps[i].1, ps[i].0, false) == stores[i + 1];
      AddBlock(position, block, false);
    }

    /**
     Builds the initial world, none of it drawn: the base layer, then one hill
     per hill draw, then one cloud per cloud draw, then up to `numTrees` trees
     on the lowest open grass. The floor around the spawn point is grass, so
     there is always a site for a tree.
     */
    method Initialize(hillDraws: seq<HillDraw>, cloudDraws: seq<CloudDraw>, numTrees: nat) returns (ghost bases: seq<Pos>)
      requires Valid()
      requires forall i :: 0 <= i < |hillDraws| ==> ValidHillDraw(WORLD_SIZE, hillDraws[i])
      requires forall i :: 0 <= i < |cloudDraws| ==> ValidCloudDraw(WORLD_SIZE, cloudDraws[i])
      modifies this`world, this`shown, this`handles, this`sectors, this`queue
      ensures Valid() && State() == PlaceAll(old(State()), Landscape(WORLD_SIZE, hillDraws, cloudDraws) + Forest(bases))
      ensures var sites := TreeSites(WorldAfter(old(world), Landscape(WORLD_SIZE, hillDraws, cloudDraws)));
        && |bases| == (if numTrees < |sites| then numTrees else |sites|)
        && (forall i :: 0 <= i < |bases| ==> bases[i] in sites)
        && NoRepeats(bases)
    {
      bases := BuildWorld(WORLD_SIZE, hillDraws, cloudDraws, numTrees);
    }

    /** The steps of `Initialize` for a world of half-width w (WORLD_SIZE in the game). */
    method BuildWorld(w: int, hillDraws: seq<HillDraw>, cloudDraws: seq<CloudDraw>, numTrees: nat) returns (ghost bases: seq<Pos>)
      requires Valid() && w >= 1
      requires forall i :: 0 <= i < |hillDraws| ==> ValidHillDraw(w, hillDraws[i])
      requires forall i :: 0 <= i < |cloudDraws| ==> ValidCloudDraw(w, cloudDraws[i])
      modifies this`world, this`shown, this`handles, this`sectors, this`queue
      ensures Valid() && State() == PlaceAll(old(State()), Landscape(w, hillDraws, cloudDraws) + Forest(bases))
      ensures var sites := TreeSites(WorldAfter(old(world), Landscape(w, hillDraws, cloudDraws)));
        && |bases| == (if numTrees < |sites| then numTrees else |sites|)
        && (forall i :: 0 <= i < |bases| ==> bases[i] in sites)
        && NoRepeats(bases)
    {
      ghost var st0 := State();
      ghost var landscape := Landscape(w, hillDraws, cloudDraws);
      PlaceLandscape(w, hillDraws, cloudDraws);
      PlaceAllIndexed(st0, landscape);
      LandscapeFloor(w, hillDraws, cloudDraws, (0, -2, 0));
      WorldAfterUniform(st0.world, landscape, (0, -2, 0), GRASS);
      assert LowGrass(world, (0, -2, 0));
      var trees;
      trees, bases := GenerateTrees(numTrees);
      PlaceAllAppend(st0, landscape, Forest(bases));
    }

    /** The landscape of the initial world: the base layer, the hills, then the clouds. */
    method PlaceLandscape(w: int, hillDraws: seq<HillDraw>, cloudDraws: seq<CloudDraw>)
      requires SectorIndexed(State()) && w >= 0
      modifies this`world, this`shown, this`handles, this`sectors, this`queue
      ensures State() == PlaceAll(old(State()), Landscape(w, hillDraws, cloudDraws))
    {
      ghost var st0 := State();
      PlaceGround(w, hillDraws);
      PlaceAllIndexed(st0, BaseLayer(w) + Hills(hillDraws));
      PlaceSky(cloudDraws);
      PlaceAllAppend(st0, BaseLayer(w) + Hills(hillDraws), Sky(CloudPatches(cloudDraws), CloudColours(cloudDraws)));
    }

    /** The base layer of half-width w, then one hill per draw. */
    method PlaceGround(w: int, hillDraws: seq<HillDraw>)
      requires SectorIndexed(State()) && w >= 0
      modifies this`world, this`shown, this`handles, this`sectors, this`queue
      ensures State() == PlaceAll(old(State()), BaseLayer(w) + Hills(hillDraws))
    {
      ghost var st0 := State();
      PlaceBaseLayer(w);
      PlaceAllIndexed(st0, BaseLayer(w));
      PlaceHills(hillDraws);
      PlaceAllAppend(st0, BaseLayer(w), Hills(hillDraws));
    }

    /** The base layer of half-width w: a floor of grass over stone, walled in with stone. */
    method PlaceBaseLayer(w: int)
      requires SectorIndexed(State()) && w >= 0
      modifies this`world, this`shown, this`handles, this`sectors, this`queue
      ensures State() == PlaceAll(old(State()), BaseLayer(w))
    {
      ghost var st0 := State();
      ghost var layer := BaseLayer(w);
      ghost var stores := StepsFromStart(st0, layer);
      AtWhole(layer);
      AddBaseRows(w, stores, layer, 0);
    }

    /** One hill per draw, in order. */
    method PlaceHills(hillDraws: seq<HillDraw>)
      requires SectorIndexed(State())
      modifies this`world, this`shown, this`handles, this`sectors, this`queue
      ensures State() == PlaceAll(old(State()), Hills(hillDraws))
    {
      ghost var st0 := State();
      ghost var hills := Hills(hillDraws);
      ghost var stores := StepsFromStart(st0, hills);
      AtWhole(hills);
      AddHills(hillDraws, stores, hills, 0);
    }

    /** One cloud per draw, each in the colour drawn for it. */
    method PlaceSky(cloudDraws: seq<CloudDraw>)
      requires SectorIndexed(State())
      modifies this`world, this`shown, this`handles, this`sectors, this`queue
      ensures State() == PlaceAll(old(State()), Sky(CloudPatches(cloudDraws), CloudColours(cloudDraws)))
    {
      var clouds := GenerateCloudsPositions(cloudDraws);
      PlaceCloudBlocks(clouds, CloudColours(cloudDraws));
    }

    /** The x loop of the base layer, which `ps` lists from index k on: row after row, from x = -w to w. */
    method AddBaseRows(w: int, ghost stores: seq<Store>, ghost ps: seq<Placement>, ghost k: nat)
      requires w >= 0
      requires StepsAlong(stores, ps) && At(ps, k, BaseLayer(w)) && State() == stores[k]
      modifies this`world, this`shown, this`handles, this`sectors, this`queue
      ensures State() == stores[k + |BaseLayer(w)|]
    {
      ghost var j := k;
      ghost var m: nat := 0;
      for x := -w to w + 1
        invariant m == x + w
        invariant j <= |ps| && j == k + |BaseRows(GRASS, STONE, w, Span(w), m)|
        invariant State() == stores[j]
      {
        RowsNext(ps, k, w, Span(w), x, m, Span(w));
        AddBaseRow(w, x, stores, ps, j);
        j := j + |BaseRow(GRASS, STONE, w, x, Span(w))|;
        m := m + 1;
      }
    }

    /** The z loop of the base layer: the columns of row x, from z = -w to w. */
    method AddBaseRow(w: int, x: int, ghost stores: seq<Store>, ghost ps: seq<Placement>, ghost k: nat)
      requires w >= 0
      requires StepsAlong(stores, ps) && At(ps, k, BaseRow(GRASS, STONE, w, x, Span(w))) && State() == stores[k]
      modifies this`world, this`shown, this`handles, this`sectors, this`queue
      ensures State() == stores[k + |BaseRow(GRASS, STONE, w, x, Span(w))|]
    {
      ghost var j := k;
      ghost var m: nat := 0;
      for z := -w to w + 1
        invariant m == z + w
        invariant j <= |ps| && j == k + |BaseRow(GRASS, STONE, w, x, m)|
        invariant State() == stores[j]
      {
        RowNext(ps, k, w, x, z, m, Span(w));
        AddBaseColumn(w, x, z, stores, ps, j);
        j := j + |BaseColumn(GRASS, STONE, w, x, z)|;
        m := m + 1;
      }
    }

    /** One column of the base layer: grass over stone, and on the perimeter a wall of five stones. */
    method AddBaseColumn(w: int, x: int, z: int, ghost stores: seq<Store>, ghost ps: seq<Placement>, ghost k: nat)
      requires StepsAlong(stores, ps) && At(ps, k, BaseColumn(GRASS, STONE, w, x, z)) && State() == stores[k]
      modifies this`world, this`shown, this`handles, this`sectors, this`queue
      ensures State() == stores[k + |BaseColumn(GRASS, STONE, w, x, z)|]
    {
      ghost var column := BaseColumn(GRASS, STONE, w, x, z);
      assert ps[k + 0] == column[0] && ps[k + 1] == column[1];
      var y := 0;
      AddNext((x, y - 2, z), GRASS, stores, ps, k);
      AddNext((x, y - 3, z), STONE, stores, ps, k + 1);
      if x == -w || x == w || z == -w || z == w {
        for dy := -2 to 3
          invariant State() == stores[k + 4 + dy]
        {
          assert ps[k + 4 + dy] == column[4 + dy];
          AddNext((x, y + dy, z), STONE, stores, ps, k + 4 + dy);
        }
      }
    }

    /** The hill loop: one hill per draw, in order; `ps` lists the hills from index k on. */
    method AddHills(draws: seq<HillDraw>, ghost stores: seq<Store>, ghost ps: seq<Placement>, ghost k: nat)
      requires StepsAlong(stores, ps) && At(ps, k, Hills(draws)) && State() == stores[k]
      modifies this`world, this`shown, this`handles, this`sectors, this`queue
      ensures State() == stores[k + |Hills(draws)|]
    {
      ghost var starts := HillStarts(ps, k, draws);
      for i := 0 to |draws|
        invariant State() == stores[starts[i]]
      {
        AddHill(draws[i], stores, ps, starts[i]);
      }
    }

    /** One hill: layer after layer from y = -1 up, each one cell narrower than the one below. */
    method AddHill(draw: HillDraw, ghost stores: seq<Store>, ghost ps: seq<Placement>, ghost k: nat)
      requires StepsAlong(stores, ps) && At(ps, k, HillOf(draw)) && State() == stores[k]
      modifies this`world, this`shown, this`handles, this`sectors, this`queue
      ensures State() == stores[k + |HillOf(draw)|]
    {
      var a: int, b: int, h: nat, side: int, t: Block := draw.centerX, draw.centerZ, draw.height, draw.sideLength, draw.block;
      var c := -1;
      var d := 1;
      var s := side;
      ghost var starts := LayerStarts(ps, k, t, a, b, side, h);
      ghost var m: nat := 0;
      for y := c to c + h
        invariant m == y - c && s == side - m
        invariant State() == stores[starts[m]]
      {
        AddHillLayer(a, b, s, y, t, stores, ps, starts[m]);
        s := s - d;
        m := m + 1;
      }
    }

    /** The x loop of one hill layer at height y and half-side s. */
    method AddHillLayer(a: int, b: int, s: int, y: int, t: Block, ghost stores: seq<Store>, ghost ps: seq<Placement>, ghost k: nat)
      requires StepsAlong(stores, ps) && At(ps, k, Paint(t, Patch(a, y, b, s, true))) && State() == stores[k]
      modifies this`world, this`shown, this`handles, this`sectors, this`queue
      ensures State() == stores[k + |Paint(t, Patch(a, y, b, s, true))|]
    {
      var x := a - s;
      ghost var starts := StripStarts(ps, k, t, a, y, b, s, Span(s), Span(s));
      ghost var m: nat := 0;
      while x < a + s + 1
        invariant m == x - (a - s) && m <= Span(s)
        invariant State() == stores[starts[m]]
      {
        AddHillStrip(a, b, s, x, y, t, stores, ps, starts[m]);
        x := x + 1;
        m := m + 1;
      }
    }

    /** The z loop of one hill layer: the cells of strip x within the round and outside the spawn area. */
    method AddHillStrip(a: int, b: int, s: int, x: int, y: int, t: Block, ghost stores: seq<Store>, ghost ps: seq<Placement>, ghost k: nat)
      requires StepsAlong(stores, ps) && At(ps, k, Paint(t, PatchStrip(a, y, b, s, true, x, Span(s)))) && State() == stores[k]
      modifies this`world, this`shown, this`handles, this`sectors, this`queue
      ensures State() == stores[k + |Paint(t, PatchStrip(a, y, b, s, true, x, Span(s)))|]
    {
      var z := b - s;
      ghost var j := k;
      ghost var m: nat := 0;
      while z < b + s + 1
        invariant m == z - (b - s) && m <= Span(s)
        invariant j <= |ps| && j == k + |PatchStrip(a, y, b, s, true, x, m)|
        invariant State() == stores[j]
      {
        CellNext(ps, k, t, a, y, b, s, x, z, m, Span(s));
        if Square(x - a) + Square(z - b) > Square(s + 1) {
          // outside the round: skipped
        } else if Square(x - 0) + Square(z - 0) < Square(5) {
          // in the spawn area: skipped
        } else {
          AddNext((x, y, z), t, stores, ps, j);
          j := j + 1;
        }
        z := z + 1;
        m := m + 1;
      }
    }

    /** The cells of one cloud; its colour is chosen when it is placed. */
    method GenerateSingleCloud(cloudCenterX: int, cloudCenterY: int, cloudCenterZ: int, s: int)
      returns (singleCloud: seq<Pos>)
      ensures singleCloud == Patch(cloudCenterX, cloudCenterY, cloudCenterZ, s, false)
    {
      singleCloud := [];
      var x := cloudCenterX - s;
      ghost var n: nat := 0;
      while x < cloudCenterX + s + 1
        invariant x == cloudCenterX - s + n && n <= Span(s)
        invariant singleCloud == PatchRows(cloudCenterX, cloudCenterY, cloudCenterZ, s, false, Span(s), n)
      {
        ghost var before := singleCloud;
        var z := cloudCenterZ - s;
        ghost var m: nat := 0;
        while z < cloudCenterZ + s + 1
          invariant z == cloudCenterZ - s + m && m <= Span(s)
          invariant singleCloud == before + PatchStrip(cloudCenterX, cloudCenterY, cloudCenterZ, s, false, x, m)
        {
          if Square(x - cloudCenterX) + Square(z - cloudCenterZ) <= Square(s + 1) {
            singleCloud := singleCloud + [(x, cloudCenterY, z)];
          }
          z, m := z + 1, m + 1;
        }
        x, n := x + 1, n + 1;
      }
    }

    /** The cells of one cloud per draw. */
    method GenerateCloudsPositions(draws: seq<CloudDraw>) returns (clouds: seq<seq<Pos>>)
      ensures clouds == CloudPatches(draws)
    {
      clouds := [];
      for i := 0 to |draws|
        invariant clouds == CloudPatches(draws[..i])
      {
        var d := draws[i];
        var singleCloud := GenerateSingleCloud(d.centerX, d.centerY, d.centerZ, d.s);
        clouds := clouds + [singleCloud];
      }
      assert draws[..|draws|] == draws;
    }

    /** Adds every cell of each cloud with that cloud's colour, none of them drawn. */
    method PlaceCloudBlocks(clouds: seq<seq<Pos>>, colours: seq<Block>)
      requires SectorIndexed(State()) && |colours| == |clouds|
      modifies this`world, this`shown, this`handles, this`sectors, this`queue
      ensures State() == PlaceAll(old(State()), Sky(clouds, colours))
    {
      ghost var st0 := State();
      ghost var sky := Sky(clouds, colours);
      ghost var stores := StepsFromStart(st0, sky);
      AddClouds(clouds, colours, stores, sky);
    }

    /** The cloud loop: cloud after cloud, in order, along the sky `ps`. */
    method AddClouds(clouds: seq<seq<Pos>>, colours: seq<Block>, ghost stores: seq<Store>, ghost ps: seq<Placement>)
      requires |colours| == |clouds| && ps == Sky(clouds, colours)
      requires StepsAlong(stores, ps) && State() == stores[0]
      modifies this`world, this`shown, this`handles, this`sectors, this`queue
      ensures State() == stores[|ps|]
    {
      ghost var starts := SkyStarts(clouds, colours);
      for i := 0 to |clouds|
        invariant State() == stores[starts[i]]
      {
        var cloudColor := colours[i];
        var cloud := clouds[i];
        PlaceCloud(cloud, cloudColor, stores, ps, starts[i]);
      }
    }

    /** The cells of one cloud, which `ps` lists from index `done` on, added in order. */
    method PlaceCloud(cloud: seq<Pos>, cloudColor: Block, ghost stores: seq<Store>, ghost ps: seq<Placement>, ghost done: nat)
      requires StepsAlong(stores, ps) && done + |cloud| <= |ps| && State() == stores[done]
      requires forall j :: 0 <= j < |cloud| ==> ps[done + j] == (cloudColor, cloud[j])
      modifies this`world, this`shown, this`handles, this`sectors, this`queue
      ensures State() == stores[done + |cloud|]
    {
      for j := 0 to |cloud|
        invariant State() == stores[done + j]
      {
        var (x, y, z) := cloud[j];
        AddNext((x, y, z), cloudColor, stores, ps, done + j);
      }
    }

    /**
     Plants one tree, trunk first, then the crown layer by layer, none of it
     drawn, on the store that the placements `done` made out of `st0`;
     returns the cells of the trunk and of the crown.
     */
    method GenerateSingleTree(x: int, y: int, z: int, trunkHeight: nat, ghost st0: Store, ghost done: seq<Placement>)
      returns (singleStem: seq<Pos>, singleLeaves: seq<Pos>)
      requires SectorIndexed(st0) && State() == PlaceAll(st0, done)
      modifies this`world, this`shown, this`handles, this`sectors, this`queue
      ensures State() == PlaceAll(st0, done + SingleTree(x, y, z, trunkHeight))
      ensures singleStem == PositionsOf(Trunk(x, y, z, trunkHeight))
      ensures singleLeaves == PositionsOf(Crown(x, y + trunkHeight, z))
    {
      ghost var tree := SingleTree(x, y, z, trunkHeight);
      SingleTreeLayout(x, y, z, trunkHeight);
      ghost var stores := StepsFrom(st0, done, tree);
      singleStem := PlantTrunk(x, y, z, trunkHeight, stores, tree);
      singleLeaves := PlantCrown(x, y + trunkHeight, z, stores, tree, trunkHeight);
    }

    /** The trunk loop: placements 0 .. h - 1 of `ps` are the trunk cells, bottom up. */
    method PlantTrunk(x: int, y: int, z: int, trunkHeight: nat, ghost stores: seq<Store>, ghost ps: seq<Placement>)
      returns (singleStem: seq<Pos>)
      requires StepsAlong(stores, ps) && TrunkAt(ps, x, y, z, trunkHeight)
      requires State() == stores[0]
      modifies this`world, this`shown, this`handles, this`sectors, this`queue
      ensures State() == stores[trunkHeight]
      ensures singleStem == PositionsOf(Trunk(x, y, z, trunkHeight))
    {
      singleStem := [];
      for stem := 0 to trunkHeight
        invariant State() == stores[stem]
        invariant singleStem == PositionsOf(Trunk(x, y, z, stem))
      {
        AddNext((x, y + stem, z), TREE_TRUNK, stores, ps, stem);
        TrunkStep(x, y, z, stem);
        singleStem := singleStem + [(x, y + stem, z)];
      }
    }

    /** The crown loops: placements k0 .. k0 + 74 of `ps` are the leaves of a crown at height `top`, in scan order. */
    method PlantCrown(x: int, top: int, z: int, ghost stores: seq<Store>, ghost ps: seq<Placement>, ghost k0: nat)
      returns (singleLeaves: seq<Pos>)
      requires StepsAlong(stores, ps) && k0 + 75 <= |ps| && ps[k0..k0 + 75] == Crown(x, top, z)
      requires State() == stores[k0]
      modifies this`world, this`shown, this`handles, this`sectors, this`queue
      ensures State() == stores[k0 + 75]
      ensures singleLeaves == PositionsOf(ps[k0..k0 + 75])
    {
      CrownLeaves(ps, k0, x, top, z);
      singleLeaves := [];
      for dx := -2 to 3
        invariant State() == stores[k0 + 15 * (dx + 2)]
        invariant singleLeaves == PositionsOf(ps[k0..k0 + 15 * (dx + 2)])
      {
        singleLeaves := PlantCrownSlice(x, top, z, dx, stores, ps, k0, singleLeaves);
      }
    }

    /** One pass of the dx loop: the 15 leaves at offset dx, layer by layer. */
    method PlantCrownSlice(x: int, top: int, z: int, dx: int, ghost stores: seq<Store>, ghost ps: seq<Placement>, ghost k0: nat,
                           leaves: seq<Pos>) returns (singleLeaves: seq<Pos>)
      requires -2 <= dx < 3
      requires StepsAlong(stores, ps) && CrownAt(ps, k0, x, top, z)
      requires State() == stores[k0 + 15 * (dx + 2)] && leaves == PositionsOf(ps[k0..k0 + 15 * (dx + 2)])
      modifies this`world, this`shown, this`handles, this`sectors, this`queue
      ensures State() == stores[k0 + 15 * (dx + 3)] && singleLeaves == PositionsOf(ps[k0..k0 + 15 * (dx + 3)])
    {
      singleLeaves := leaves;
      for dy := 0 to 3
        invariant State() == stores[k0 + 15 * (dx + 2) + 5 * dy]
        invariant singleLeaves == PositionsOf(ps[k0..k0 + 15 * (dx + 2) + 5 * dy])
      {
        LeafRun(ps, k0, x, top, z, dx, dy);
        singleLeaves := PlantCrownRow(x, top, z, dx, dy, stores, ps, k0, k0 + 15 * (dx + 2) + 5 * dy, singleLeaves);
      }
    }

    /** One pass of the dy loop: the 5 leaves at offsets dx and dy, placements n0 .. n0 + 4 of `ps`. */
    method PlantCrownRow(x: int, top: int, z: int, dx: int, dy: int, ghost stores: seq<Store>, ghost ps: seq<Placement>, ghost k0: nat,
                         ghost n0: nat, leaves: seq<Pos>) returns (singleLeaves: seq<Pos>)
      requires StepsAlong(stores, ps) && k0 <= n0 && n0 + 5 <= |ps|
      requires forall k :: n0 <= k < n0 + 5 ==> ps[k] == (TREE_LEAVES, (x + dx, top + dy, z + k - n0 - 2))
      requires State() == stores[n0] && leaves == PositionsOf(ps[k0..n0])
      modifies this`world, this`shown, this`handles, this`sectors, this`queue
      ensures State() == stores[n0 + 5] && singleLeaves == PositionsOf(ps[k0..n0 + 5])
    {
      singleLeaves := leaves;
      for dz := -2 to 3
        invariant State() == stores[n0 + dz + 2] && singleLeaves == PositionsOf(ps[k0..n0 + dz + 2])
      {
        var position := (x + dx, top + dy, z + dz);
        AddNext(position, TREE_LEAVES, stores, ps, n0 + dz + 2);
        PositionsStep(ps, k0, n0 + dz + 2);
        singleLeaves := singleLeaves + [position];
      }
    }

    /**
     Plants up to `numTrees` trees of trunk height 5, each on a different
     site of the world as it was before planting, chosen at random among the
     sites not chosen yet; it stops early when the sites run out.
     */
    method GenerateTrees(numTrees: nat) returns (trees: seq<(seq<Pos>, seq<Pos>)>, ghost bases: seq<Pos>)
      requires Valid() && exists p :: LowGrass(world, p)
      modifies this`world, this`shown, this`handles, this`sectors, this`queue
      ensures Valid() && State() == PlaceAll(old(State()), Forest(bases))
      ensures |trees| == |bases| == if numTrees < |TreeSites(old(world))| then numTrees else |TreeSites(old(world))|
      ensures forall i :: 0 <= i < |bases| ==> bases[i] in TreeSites(old(world))
      ensures NoRepeats(bases)
      ensures trees == Groves(bases)
    {
      var suggestedPlacesForTrees := FindTreeSites(world);
      trees, bases := PlantTrees(suggestedPlacesForTrees, numTrees, State());
      PlaceAllIndexed(old(State()), Forest(bases));
    }

    /** The tree loop: up to `numTrees` trees, each on a site of `sites` not taken before. */
    method PlantTrees(sites: set<Pos>, numTrees: nat, ghost st0: Store) returns (trees: seq<(seq<Pos>, seq<Pos>)>, ghost bases: seq<Pos>)
      requires SectorIndexed(st0) && State() == st0
      modifies this`world, this`shown, this`handles, this`sectors, this`queue
      ensures State() == PlaceAll(st0, Forest(bases))
      ensures |trees| == |bases| == if numTrees < |sites| then numTrees else |sites|
      ensures forall i :: 0 <= i < |bases| ==> bases[i] in sites
      ensures NoRepeats(bases)
      ensures trees == Groves(bases)
    {
      var suggestedPlacesForTrees := sites;
      trees, bases := [], [];
      for n := 0 to numTrees
        invariant State() == PlaceAll(st0, Forest(bases))
        invariant |trees| == |bases| == n
        invariant Chosen(bases, sites, suggestedPlacesForTrees)
        invariant trees == Groves(bases)
      {
        if suggestedPlacesForTrees == {} {
          break;
        }
        var base :| base in suggestedPlacesForTrees;
        ghost var before, left := bases, suggestedPlacesForTrees;
        suggestedPlacesForTrees := suggestedPlacesForTrees - {base};
        ForestStep(bases, base);
        GrovesStep(bases, base);
        var singleStem, singleLeaves := GenerateSingleTree(base.0, base.1 + 1, base.2, 5, st0, Forest(bases));
        trees, bases := trees + [(singleStem, singleLeaves)], bases + [base];
        ChosenStep(before, left, base, bases, suggestedPlacesForTrees, sites);
      }
      ChosenSites(bases, sites, suggestedPlacesForTrees);
    }
  }
}
