/**
 The world store of the game model, as values: which block stands at each
 position, which blocks are shown, the renderer's vertex data for drawn
 blocks, the per-sector position lists and the queue of deferred drawing
 operations. Each operation of the model is a function from one store to
 the next; the lemmas state what the operations promise about the store.
 */
module WorldStore {
  import opened Blocks
  import opened Geometry
  import opened Grid
  import opened Options

  /** What the renderer holds for a drawn block: its vertex data and its texture coordinates. */
  datatype Mesh = Mesh(vertices: seq<real>, texture: seq<real>)

  /** The mesh drawn for block kind `b` at position `p`: a unit cube centred on the position. */
  function MeshFor(p: Pos, b: Block): Mesh
  {
    Mesh(CubeVertices(p.0 as real, p.1 as real, p.2 as real, 0.5), b.textureCoordinates())
  }

  /** A block kind to be placed at a position. */
  type Placement = (Block, Pos)

  /** A deferred drawing operation: draw a block, or erase the drawing at a position. */
  datatype Op = ShowOp(pos: Pos, block: Block) | HideOp(pos: Pos)

  /**
   The state of the model: `world` maps every placed position to its kind;
   `shown` holds the positions meant to be visible (with the kind shown);
   `handles` holds the renderer's data of what is actually drawn; `sectors`
   maps a sector to the positions added in it; `queue` holds deferred
   drawing operations, oldest first.
   */
  datatype Store = Store(
    world: map<Pos, Block>,
    shown: map<Pos, Block>,
    handles: map<Pos, Mesh>,
    sectors: map<Pos, seq<Pos>>,
    queue: seq<Op>)

  /** The store of a model that has no blocks yet. */
  const EMPTY: Store := Store(map[], map[], map[], map[], [])

  // ---------------------------------------------------------------- exposure

  /** A block is exposed when at least one of its six face neighbours is empty. */
  predicate Exposed(world: map<Pos, Block>, p: Pos)
  {
    exists k :: 0 <= k < 6 && Neighbor(p, k) !in world
  }

  /** Every neighbour of an empty position is exposed, through the face that points back. */
  lemma ExposedNextToEmpty(world: map<Pos, Block>, p: Pos)
    requires p !in world
    ensures forall k :: 0 <= k < 6 ==> Exposed(world, Neighbor(p, k))
  {
    forall k | 0 <= k < 6
      ensures Exposed(world, Neighbor(p, k))
    {
      NeighborOpposite(p, k);
      assert Neighbor(Neighbor(p, k), Opposite(k)) !in world;
    }
  }

  // ---------------------------------------------------------------- renderer

  /** The renderer data that a set of shown blocks calls for: one mesh per shown block. */
  function Meshes(shown: map<Pos, Block>): map<Pos, Mesh>
  {
    map q | q in shown :: MeshFor(q, shown[q])
  }

  lemma MeshesUpdate(shown: map<Pos, Block>, p: Pos, b: Block)
    ensures Meshes(shown[p := b]) == Meshes(shown)[p := MeshFor(p, b)]
    ensures Meshes(shown - {p}) == Meshes(shown) - {p}
  {
    assert Meshes(shown[p := b]).Keys == (Meshes(shown)[p := MeshFor(p, b)]).Keys;
    assert Meshes(shown - {p}).Keys == (Meshes(shown) - {p}).Keys;
  }

  /** Running one deferred operation against the renderer's data. */
  function RunOp(h: map<Pos, Mesh>, op: Op): map<Pos, Mesh>
    requires op.HideOp? ==> op.pos in h
  {
    match op
    case ShowOp(p, b) => h[p := MeshFor(p, b)]
    case HideOp(p) => h - {p}
  }

  /** The operations can run in order without erasing a drawing that is not there. */
  predicate Runnable(h: map<Pos, Mesh>, q: seq<Op>)
    decreases |q|
  {
    q == [] || ((q[0].HideOp? ==> q[0].pos in h) && Runnable(RunOp(h, q[0]), q[1..]))
  }

  /** The renderer's data after running the operations, oldest first. */
  function RunOps(h: map<Pos, Mesh>, q: seq<Op>): map<Pos, Mesh>
    requires Runnable(h, q)
    decreases |q|
  {
    if q == [] then h else RunOps(RunOp(h, q[0]), q[1..])
  }

  /** A single operation runs when it erases only a drawing that is there. */
  lemma RunOne(h: map<Pos, Mesh>, op: Op)
    requires op.HideOp? ==> op.pos in h
    ensures Runnable(h, [op]) && RunOps(h, [op]) == RunOp(h, op)
  {
    assert [op][1..] == [];
  }

  /** Running two batches one after the other is running their concatenation. */
  lemma {:induction false} RunOpsAppend(h: map<Pos, Mesh>, q1: seq<Op>, q2: seq<Op>)
    ensures Runnable(h, q1 + q2) <==> Runnable(h, q1) && Runnable(RunOps(h, q1), q2)
    ensures Runnable(h, q1 + q2) ==> RunOps(h, q1 + q2) == RunOps(RunOps(h, q1), q2)
    decreases |q1|
  {
    if q1 == [] {
      assert q1 + q2 == q2;
    } else {
      assert (q1 + q2)[0] == q1[0];
      assert (q1 + q2)[1..] == q1[1..] + q2;
      if q1[0].HideOp? ==> q1[0].pos in h {
        RunOpsAppend(RunOp(h, q1[0]), q1[1..], q2);
      }
    }
  }

  /**
   Once every queued operation has run, the renderer holds exactly one mesh
   per shown block, built from the kind shown there, and running the queue
   never erases a drawing that is missing.
   */
  predicate Rendered(st: Store)
  {
    Runnable(st.handles, st.queue) && RunOps(st.handles, st.queue) == Meshes(st.shown)
  }

  /** Nothing is queued and the renderer already matches the shown blocks. */
  predicate Drained(st: Store)
  {
    st.queue == [] && st.handles == Meshes(st.shown)
  }

  lemma DrainedRendered(st: Store)
    requires Drained(st)
    ensures Rendered(st)
  {
  }

  // ---------------------------------------------------------------- show and hide

  /**
   Showing the block at `p`: nothing when `p` is empty; otherwise it is marked
   shown and drawn now, or a drawing operation is queued.
   */
  function AfterShow(st: Store, p: Pos, immediate: bool): Store
  {
    if p !in st.world then st
    else
      var b := st.world[p];
      if immediate then st.(shown := st.shown[p := b], handles := st.handles[p := MeshFor(p, b)])
      else st.(shown := st.shown[p := b], queue := st.queue + [ShowOp(p, b)])
  }

  /**
   Hiding the block at `p`, which must be shown (and, to erase it now, drawn):
   it is unmarked and erased now, or an erasing operation is queued.
   */
  function AfterHide(st: Store, p: Pos, immediate: bool): Store
    requires p in st.shown
    requires immediate ==> p in st.handles
  {
    if immediate then st.(shown := st.shown - {p}, handles := st.handles - {p})
    else st.(shown := st.shown - {p}, queue := st.queue + [HideOp(p)])
  }

  /** Showing and hiding keep the renderer in step with the shown blocks. */
  lemma ShowHideKeepRendered(st: Store, p: Pos)
    ensures Rendered(st) ==> Rendered(AfterShow(st, p, false))
    ensures Drained(st) ==> Drained(AfterShow(st, p, true))
    ensures Rendered(st) && p in st.shown ==> Rendered(AfterHide(st, p, false))
    ensures Drained(st) && p in st.shown ==> Drained(AfterHide(st, p, true))
  {
    if p in st.world {
      var b := st.world[p];
      MeshesUpdate(st.shown, p, b);
      if Rendered(st) {
        RunOpsAppend(st.handles, st.queue, [ShowOp(p, b)]);
      }
    }
    if p in st.shown {
      MeshesUpdate(st.shown, p, st.shown[p]);
      if Rendered(st) {
        RunOpsAppend(st.handles, st.queue, [HideOp(p)]);
      }
    }
  }

  // ---------------------------------------------------------------- neighbours

  /**
   Settling `q` would erase its drawing now only when that drawing exists:
   a shown block in the world that is no longer exposed must be drawn.
   */
  predicate HideSafe(st: Store, q: Pos)
  {
    q in st.world && q in st.shown && !Exposed(st.world, q) ==> q in st.handles
  }

  /** Stores `a` and `b` agree on what is shown and drawn at `q`. */
  predicate SameAt(a: Store, b: Store, q: Pos)
  {
    && (q in a.shown <==> q in b.shown) && (q in a.shown ==> a.shown[q] == b.shown[q])
    && (q in a.handles <==> q in b.handles) && (q in a.handles ==> a.handles[q] == b.handles[q])
  }

  /** Every position of `b` that is shown but not drawn was already so in `a`. */
  predicate NoNewOrphans(a: Store, b: Store)
  {
    forall q :: q in b.shown && q !in b.handles ==> q in a.shown && q !in a.handles
  }

  /**
   Bringing the visibility of the block at `q` up to date, drawing and erasing
   at once: an exposed block that is not shown is shown; a covered block that
   is shown is hidden; an empty position is left alone.
   */
  function Settle(st: Store, q: Pos): (r: Store)
    requires HideSafe(st, q)
    ensures r.world == st.world && r.sectors == st.sectors && r.queue == st.queue
    ensures forall x :: x != q ==> SameAt(st, r, x)
    ensures q !in st.world ==> SameAt(st, r, q)
    ensures q in st.world ==> (q in r.shown <==> Exposed(st.world, q))
    ensures NoNewOrphans(st, r)
    ensures st.shown.Keys <= st.world.Keys ==> r.shown.Keys <= r.world.Keys
    ensures Drained(st) ==> Drained(r)
  {
    ShowHideKeepRendered(st, q);
    if q !in st.world then st
    else if Exposed(st.world, q) then (if q !in st.shown then AfterShow(st, q, true) else st)
    else if q in st.shown then AfterHide(st, q, true)
    else st
  }

  /** `q` is one of the first `k` face neighbours of `p`. */
  predicate AmongFirst(p: Pos, q: Pos, k: int)
  {
    exists j :: 0 <= j < k && j < 6 && q == Neighbor(p, j)
  }

  /** Neighbour `k` of `p` is none of the neighbours before it. */
  lemma NotAmongFirst(p: Pos, k: int)
    requires 0 <= k < 6
    ensures !AmongFirst(p, Neighbor(p, k), k)
  {
    NeighborsDistinct(p);
  }

  /**
   Settling the first `k` face neighbours of `p` in face order. With k = 6
   this is what checking the neighbours of `p` does: afterwards each neighbour
   in the world is shown exactly when it is exposed, and nothing else changed.
   */
  function SettleFaces(st: Store, p: Pos, k: int): (r: Store)
    requires 0 <= k <= 6
    requires forall j :: 0 <= j < k ==> HideSafe(st, Neighbor(p, j))
    ensures r.world == st.world && r.sectors == st.sectors && r.queue == st.queue
    ensures forall x :: !AmongFirst(p, x, k) ==> SameAt(st, r, x)
    ensures forall j :: 0 <= j < k && Neighbor(p, j) in st.world ==>
              (Neighbor(p, j) in r.shown <==> Exposed(st.world, Neighbor(p, j)))
    ensures NoNewOrphans(st, r)
    ensures st.shown.Keys <= st.world.Keys ==> r.shown.Keys <= r.world.Keys
    ensures Drained(st) ==> Drained(r)
    decreases k
  {
    if k == 0 then st
    else
      var s := SettleFaces(st, p, k - 1);
      var q := Neighbor(p, k - 1);
      NotAmongFirst(p, k - 1);
      assert HideSafe(st, q) && SameAt(st, s, q);
      var r := Settle(s, q);
      SameAtChain(st, s, r, p, k);
      r
  }

  lemma SameAtChain(st: Store, s: Store, r: Store, p: Pos, k: int)
    requires 1 <= k <= 6
    requires forall x :: !AmongFirst(p, x, k - 1) ==> SameAt(st, s, x)
    requires forall x :: x != Neighbor(p, k - 1) ==> SameAt(s, r, x)
    ensures forall x :: !AmongFirst(p, x, k) ==> SameAt(st, r, x)
  {
    forall x | !AmongFirst(p, x, k)
      ensures SameAt(st, r, x)
    {
      assert !AmongFirst(p, x, k - 1);
      assert x != Neighbor(p, k - 1);
      assert SameAt(st, s, x) && SameAt(s, r, x);
    }
  }

  /**
   `steps` lists the stores met while settling the neighbours of `p` one at a
   time: each may settle its next neighbour, and doing so gives the next store.
   */
  predicate SettleAlong(steps: seq<Store>, p: Pos)
  {
    && |steps| == 7
    && forall j {:trigger Settle(steps[j], Neighbor(p, j))} {:trigger HideSafe(steps[j], Neighbor(p, j))} :: 0 <= j < 6 ==>
         HideSafe(steps[j], Neighbor(p, j)) && Settle(steps[j], Neighbor(p, j)) == steps[j + 1]
  }

  /** The stores between the first and the last step of settling the neighbours of `p`. */
  lemma SettleSteps(st: Store, p: Pos) returns (steps: seq<Store>)
    requires forall j :: 0 <= j < 6 ==> HideSafe(st, Neighbor(p, j))
    ensures SettleAlong(steps, p) && steps[0] == st && steps[6] == SettleFaces(st, p, 6)
  {
    steps := seq(7, j requires 0 <= j <= 6 => SettleFaces(st, p, j));
    forall j | 0 <= j < 6
      ensures HideSafe(steps[j], Neighbor(p, j)) && Settle(steps[j], Neighbor(p, j)) == steps[j + 1]
    {
      NotAmongFirst(p, j);
      assert SameAt(st, steps[j], Neighbor(p, j));
    }
  }

  /** Every neighbour that is in the world is shown exactly when it is exposed. */
  predicate NeighborsSettled(st: Store, p: Pos)
  {
    forall j :: 0 <= j < 6 && Neighbor(p, j) in st.world ==>
      (Neighbor(p, j) in st.shown <==> Exposed(st.world, Neighbor(p, j)))
  }

  lemma {:induction false} SettleFacesNoop(st: Store, p: Pos, k: int)
    requires 0 <= k <= 6
    requires NeighborsSettled(st, p)
    ensures forall j :: 0 <= j < k ==> HideSafe(st, Neighbor(p, j))
    ensures SettleFaces(st, p, k) == st
    decreases k
  {
    if k > 0 {
      SettleFacesNoop(st, p, k - 1);
    }
  }

  /**
   Checking the neighbours of `p` leaves each in-world neighbour shown exactly
   when exposed, changes no other position, and a second check right after
   changes nothing.
   */
  lemma CheckNeighborsSettles(st: Store, p: Pos)
    requires forall j :: 0 <= j < 6 ==> HideSafe(st, Neighbor(p, j))
    ensures NeighborsSettled(SettleFaces(st, p, 6), p)
    ensures forall x :: !AmongFirst(p, x, 6) ==> SameAt(st, SettleFaces(st, p, 6), x)
    ensures forall j :: 0 <= j < 6 ==> HideSafe(SettleFaces(st, p, 6), Neighbor(p, j))
    ensures SettleFaces(SettleFaces(st, p, 6), p, 6) == SettleFaces(st, p, 6)
  {
    var r := SettleFaces(st, p, 6);
    SettleFacesNoop(r, p, 6);
  }

  // ---------------------------------------------------------------- sectors

  /** The positions recorded for sector `s`; none when the sector has no entry. */
  function ListOf(sectors: map<Pos, seq<Pos>>, s: Pos): seq<Pos>
  {
    if s in sectors then sectors[s] else []
  }

  /** The positions the store records for sector `s`. */
  function SectorList(st: Store, s: Pos): seq<Pos>
  {
    ListOf(st.sectors, s)
  }

  /** No position occurs twice in `xs`. */
  predicate NoRepeats(xs: seq<Pos>)
  {
    forall i, j :: 0 <= i < j < |xs| ==> xs[i] != xs[j]
  }

  /**
   A sector index is exact for a world: each position in the world is
   recorded in the list of its own sector, no list records a position twice,
   and every recorded position is in the world and in the sector it is
   recorded under.
   */
  predicate Indexed(world: map<Pos, Block>, sectors: map<Pos, seq<Pos>>)
  {
    Covered(world, sectors) && Unrepeated(sectors) && Recorded(world, sectors)
  }

  /** Each position of the world is in its own sector's list. */
  predicate Covered(world: map<Pos, Block>, sectors: map<Pos, seq<Pos>>)
  {
    forall q :: q in world ==> q in ListOf(sectors, SectorOf(q))
  }

  /** No sector list records a position twice. */
  predicate Unrepeated(sectors: map<Pos, seq<Pos>>)
  {
    forall s {:trigger NoRepeats(sectors[s])} :: s in sectors ==> NoRepeats(sectors[s])
  }

  /** Every recorded position is in the world and in the sector it is recorded under. */
  predicate Recorded(world: map<Pos, Block>, sectors: map<Pos, seq<Pos>>)
  {
    forall s, i :: s in sectors && 0 <= i < |sectors[s]| ==> sectors[s][i] in world && SectorOf(sectors[s][i]) == s
  }

  /** The store's sector index is exact. */
  predicate SectorIndexed(st: Store)
  {
    Indexed(st.world, st.sectors)
  }

  /** Under an exact index, a sector's list holds exactly the world's positions in that sector, once each. */
  lemma SectorListMembers(st: Store, s: Pos, q: Pos)
    requires SectorIndexed(st)
    ensures q in SectorList(st, s) <==> q in st.world && SectorOf(q) == s
    ensures multiset(SectorList(st, s))[q] <= 1
  {
    var xs := SectorList(st, s);
    if q in xs {
      var i :| 0 <= i < |xs| && xs[i] == q;
    }
    if s in st.sectors {
      NoRepeatsCount(xs, q);
    }
  }

  /** A list without repeats holds each position at most once. */
  lemma {:induction false} NoRepeatsCount(xs: seq<Pos>, q: Pos)
    requires NoRepeats(xs)
    ensures multiset(xs)[q] <= 1
  {
    if xs != [] {
      assert xs == [xs[0]] + xs[1..];
      assert NoRepeats(xs[1..]) by {
        forall i, j | 0 <= i < j < |xs[1..]|
          ensures xs[1..][i] != xs[1..][j]
        {
          assert xs[1..][i] == xs[i + 1] && xs[1..][j] == xs[j + 1];
        }
      }
      NoRepeatsCount(xs[1..], q);
      if xs[0] == q {
        assert q !in xs[1..] by {
          forall k | 0 <= k < |xs[1..]|
            ensures xs[1..][k] != q
          {
            assert xs[1..][k] == xs[k + 1];
          }
        }
      }
    }
  }

  /**
   The list with the first occurrence of `x` taken out, keeping the order of
   the rest; the list is unchanged when `x` does not occur.
   */
  function RemoveFirst(xs: seq<Pos>, x: Pos): (r: seq<Pos>)
    ensures x !in xs ==> r == xs
  {
    if xs == [] then []
    else if xs[0] == x then xs[1..]
    else
      assert xs == [xs[0]] + xs[1..];
      [xs[0]] + RemoveFirst(xs[1..], x)
  }

  /** Exactly one occurrence of `x` goes, if there is one, and nothing else. */
  lemma {:induction false} RemoveFirstCount(xs: seq<Pos>, x: Pos)
    ensures multiset(RemoveFirst(xs, x)) == multiset(xs) - multiset{x}
  {
    if xs != [] {
      assert xs == [xs[0]] + xs[1..];
      if xs[0] != x {
        RemoveFirstCount(xs[1..], x);
      }
    }
  }

  /** The index of the first occurrence of `x`. */
  function FirstIndex(xs: seq<Pos>, x: Pos): (i: nat)
    requires x in xs
    ensures i < |xs| && xs[i] == x && x !in xs[..i]
  {
    if xs[0] == x then 0
    else
      var j := FirstIndex(xs[1..], x);
      assert xs[..j + 1] == [xs[0]] + xs[1..][..j];
      j + 1
  }

  /** It is the first occurrence that goes, and the others keep their order. */
  lemma {:induction false} RemoveFirstAt(xs: seq<Pos>, x: Pos)
    requires x in xs
    ensures RemoveFirst(xs, x) == xs[..FirstIndex(xs, x)] + xs[FirstIndex(xs, x) + 1..]
  {
    if xs[0] != x {
      var t := xs[1..];
      RemoveFirstAt(t, x);
      var j := FirstIndex(t, x);
      assert FirstIndex(xs, x) == j + 1;
      assert xs[..j + 1] == [xs[0]] + t[..j];
      assert xs[j + 2..] == t[j + 1..];
    }
  }

  /** Dropping one entry of a list without repeats leaves a list without repeats holding all other entries. */
  lemma DropAt(xs: seq<Pos>, i: int)
    requires 0 <= i < |xs| && NoRepeats(xs)
    ensures NoRepeats(xs[..i] + xs[i + 1..])
    ensures forall y :: y in xs[..i] + xs[i + 1..] <==> y in xs && y != xs[i]
  {
    var r := xs[..i] + xs[i + 1..];
    assert |r| == |xs| - 1;
    assert forall k :: 0 <= k < |r| ==> r[k] == if k < i then xs[k] else xs[k + 1];
    forall y | y in xs && y != xs[i]
      ensures y in r
    {
      var k :| 0 <= k < |xs| && xs[k] == y;
      if k < i {
        assert r[k] == y;
      } else {
        assert r[k - 1] == y;
      }
    }
  }

  /** Removing the first `p` from a list without repeats removes every `p` and keeps the rest. */
  lemma RemoveFirstNoRepeats(xs: seq<Pos>, x: Pos)
    requires NoRepeats(xs) && x in xs
    ensures NoRepeats(RemoveFirst(xs, x))
    ensures forall y :: y in RemoveFirst(xs, x) <==> y in xs && y != x
  {
    RemoveFirstAt(xs, x);
    DropAt(xs, FirstIndex(xs, x));
  }

  // ---------------------------------------------------------------- remove and add

  /**
   What removing `p` needs not to fail: `p` is in the world and in its
   sector's list, and, when erasing at once, a shown `p` is drawn.
   */
  predicate RemoveReady(st: Store, p: Pos, immediate: bool)
  {
    p in st.world && p in SectorList(st, SectorOf(p)) && (immediate && p in st.shown ==> p in st.handles)
  }

  /**
   Removing the block at `p`: it leaves the world and its sector's list; when
   immediate, a shown `p` is hidden at once and its neighbours are checked.
   A deferred removal does not hide `p`.
   */
  function AfterRemove(st: Store, p: Pos, immediate: bool): (r: Store)
    requires RemoveReady(st, p, immediate)
    ensures r.world == st.world - {p}
    ensures r.sectors == st.sectors[SectorOf(p) := RemoveFirst(st.sectors[SectorOf(p)], p)]
    ensures r.queue == st.queue
    ensures !immediate ==> r.shown == st.shown && r.handles == st.handles
    ensures NoNewOrphans(st, r)
  {
    var s := SectorOf(p);
    var st1 := st.(world := st.world - {p}, sectors := st.sectors[s := RemoveFirst(st.sectors[s], p)]);
    if !immediate then st1
    else
      var st2 := if p in st1.shown then AfterHide(st1, p, true) else st1;
      ExposedNextToEmpty(st2.world, p);
      SettleFaces(st2, p, 6)
  }

  /**
   Adding `b` at `p` would erase at once only drawings that exist: a shown
   neighbour that the new block covers up must be drawn.
   */
  predicate AddHideSafe(st: Store, p: Pos, b: Block, q: Pos)
  {
    q in st.world && q in st.shown && !Exposed(st.world[p := b], q) ==> q in st.handles
  }

  /** What adding `b` at `p` needs not to fail. */
  predicate AddReady(st: Store, p: Pos, b: Block, immediate: bool)
  {
    && (p in st.world ==> RemoveReady(st, p, immediate))
    && (immediate ==> forall k :: 0 <= k < 6 ==> AddHideSafe(st, p, b, Neighbor(p, k)))
  }

  /** The store after the replaced block, if any, is removed and `b` is recorded at `p`. */
  function Placed(st: Store, p: Pos, b: Block, immediate: bool): (r: Store)
    requires AddReady(st, p, b, immediate)
    ensures r.world == st.world[p := b]
    ensures r.queue == st.queue
    ensures !immediate ==> r.shown == st.shown && r.handles == st.handles
    ensures NoNewOrphans(st, r)
  {
    var st1 := if p in st.world then AfterRemove(st, p, immediate) else st;
    var s := SectorOf(p);
    st1.(world := st1.world[p := b], sectors := st1.sectors[s := SectorList(st1, s) + [p]])
  }

  /**
   Adding `b` at `p`: a block already there is removed first; `b` is recorded
   in the world and appended to its sector's list; when immediate, `p` is
   shown if exposed and its neighbours are checked.
   */
  function AfterAdd(st: Store, p: Pos, b: Block, immediate: bool): (r: Store)
    requires AddReady(st, p, b, immediate)
    ensures r.world == st.world[p := b] && r.sectors == Placed(st, p, b, immediate).sectors && r.queue == st.queue
    ensures !immediate ==> r == Placed(st, p, b, immediate)
  {
    var st2 := Placed(st, p, b, immediate);
    if !immediate then st2
    else
      var st3 := if Exposed(st2.world, p) then AfterShow(st2, p, true) else st2;
      AddSettleReady(st, p, b, st2, st3);
      SettleFaces(st3, p, 6)
  }

  lemma AddSettleReady(st: Store, p: Pos, b: Block, st2: Store, st3: Store)
    requires forall k :: 0 <= k < 6 ==> AddHideSafe(st, p, b, Neighbor(p, k))
    requires st2.world == st.world[p := b] && NoNewOrphans(st, st2)
    requires st3 == if Exposed(st2.world, p) then AfterShow(st2, p, true) else st2
    ensures forall k :: 0 <= k < 6 ==> HideSafe(st3, Neighbor(p, k))
  {
    forall k | 0 <= k < 6
      ensures HideSafe(st3, Neighbor(p, k))
    {
      var q := Neighbor(p, k);
      assert SameAt(st2, st3, q);
    }
  }

  /** Taking the first `p` out of its sector's list and `p` out of the world keeps the index exact. */
  lemma IndexAfterUnrecord(world: map<Pos, Block>, sectors: map<Pos, seq<Pos>>, p: Pos)
    requires Indexed(world, sectors) && p in world
    ensures SectorOf(p) in sectors
    ensures Indexed(world - {p}, sectors[SectorOf(p) := RemoveFirst(sectors[SectorOf(p)], p)])
  {
    var s := SectorOf(p);
    assert p in ListOf(sectors, s);
    RemoveFirstNoRepeats(sectors[s], p);
    var ss := sectors[s := RemoveFirst(sectors[s], p)];
    UnrecordCovered(world, sectors, p, ss);
    UnrecordRecorded(world, sectors, p, ss);
    forall t | t in ss
      ensures NoRepeats(ss[t])
    {
      if t != s {
        assert ss[t] == sectors[t];
      }
    }
  }

  lemma UnrecordCovered(world: map<Pos, Block>, sectors: map<Pos, seq<Pos>>, p: Pos, ss: map<Pos, seq<Pos>>)
    requires Covered(world, sectors) && SectorOf(p) in sectors
    requires ss == sectors[SectorOf(p) := RemoveFirst(sectors[SectorOf(p)], p)]
    requires forall y :: y in ss[SectorOf(p)] <==> y in sectors[SectorOf(p)] && y != p
    ensures Covered(world - {p}, ss)
  {
    forall q | q in world - {p}
      ensures q in ListOf(ss, SectorOf(q))
    {
      assert q in ListOf(sectors, SectorOf(q));
    }
  }

  lemma UnrecordRecorded(world: map<Pos, Block>, sectors: map<Pos, seq<Pos>>, p: Pos, ss: map<Pos, seq<Pos>>)
    requires Indexed(world, sectors) && SectorOf(p) in sectors
    requires ss == sectors[SectorOf(p) := RemoveFirst(sectors[SectorOf(p)], p)]
    requires forall y :: y in ss[SectorOf(p)] <==> y in sectors[SectorOf(p)] && y != p
    ensures Recorded(world - {p}, ss)
  {
    var s := SectorOf(p);
    forall t, i | t in ss && 0 <= i < |ss[t]|
      ensures ss[t][i] in world - {p} && SectorOf(ss[t][i]) == t
    {
      var q := ss[t][i];
      if t == s {
        assert q in ss[s];
        IndexedMember(world, sectors, s, q);
      } else {
        assert ss[t] == sectors[t];
        assert q == sectors[t][i];
      }
    }
  }

  /** Under an exact index, a recorded position is in the world and in the sector it is recorded under. */
  lemma IndexedMember(world: map<Pos, Block>, sectors: map<Pos, seq<Pos>>, t: Pos, q: Pos)
    requires Indexed(world, sectors) && t in sectors && q in sectors[t]
    ensures q in world && SectorOf(q) == t
  {
    var j :| 0 <= j < |sectors[t]| && sectors[t][j] == q;
  }

  /** Recording `p` in the world and at the end of its sector's list keeps the index exact. */
  lemma IndexAfterRecord(world: map<Pos, Block>, sectors: map<Pos, seq<Pos>>, p: Pos, b: Block)
    requires Indexed(world, sectors) && p !in world
    ensures Indexed(world[p := b], sectors[SectorOf(p) := ListOf(sectors, SectorOf(p)) + [p]])
  {
    var s := SectorOf(p);
    var xs := ListOf(sectors, s);
    var w := world[p := b];
    var l := xs + [p];
    var ss := sectors[s := l];
    assert p !in xs;
    assert NoRepeats(l) by {
      forall i, j | 0 <= i < j < |l|
        ensures l[i] != l[j]
      {
        if j < |xs| {
          assert NoRepeats(sectors[s]);
          assert l[i] == sectors[s][i] && l[j] == sectors[s][j];
        } else {
          assert l[i] == xs[i];
        }
      }
    }
    forall q | q in w
      ensures q in ListOf(ss, SectorOf(q))
    {
      if q != p {
        assert q in ListOf(sectors, SectorOf(q));
        if SectorOf(q) == s {
          assert q in xs;
          var j :| 0 <= j < |xs| && xs[j] == q;
          assert l[j] == q;
        }
      } else {
        assert l[|xs|] == p;
      }
    }
    forall t, i | t in ss && 0 <= i < |ss[t]|
      ensures ss[t][i] in w && SectorOf(ss[t][i]) == t
    {
      if t == s && i < |xs| {
        assert ss[t][i] == sectors[s][i];
      } else if t != s {
        assert ss[t][i] == sectors[t][i];
      }
    }
  }

  /**
   Adding and removing keep the sector index exact, in both modes; so the
   added block is recorded exactly once, in its own sector.
   */
  lemma AddRemoveKeepIndex(st: Store, p: Pos, b: Block, immediate: bool)
    requires SectorIndexed(st)
    ensures RemoveReady(st, p, immediate) ==> SectorIndexed(AfterRemove(st, p, immediate))
    ensures AddReady(st, p, b, immediate) ==> SectorIndexed(AfterAdd(st, p, b, immediate))
    ensures AddReady(st, p, b, immediate) ==> multiset(SectorList(AfterAdd(st, p, b, immediate), SectorOf(p)))[p] == 1
  {
    if RemoveReady(st, p, immediate) {
      IndexAfterUnrecord(st.world, st.sectors, p);
    }
    if AddReady(st, p, b, immediate) {
      AddKeepsIndex(st, p, b, immediate);
      var r := AfterAdd(st, p, b, immediate);
      SectorListMembers(r, SectorOf(p), p);
    }
  }

  lemma AddKeepsIndex(st: Store, p: Pos, b: Block, immediate: bool)
    requires SectorIndexed(st) && AddReady(st, p, b, immediate)
    ensures SectorIndexed(AfterAdd(st, p, b, immediate))
  {
    var st1 := if p in st.world then AfterRemove(st, p, immediate) else st;
    if p in st.world {
      IndexAfterUnrecord(st.world, st.sectors, p);
    }
    assert Indexed(st1.world, st1.sectors);
    IndexAfterRecord(st1.world, st1.sectors, p, b);
    var r := AfterAdd(st, p, b, immediate);
    assert r.world == st1.world[p := b];
    assert r.sectors == st1.sectors[SectorOf(p) := ListOf(st1.sectors, SectorOf(p)) + [p]];
  }

  /** Under an exact index, removal needs only `p` in the world (and a drawn `p` when immediate). */
  lemma RemoveReadyIndexed(st: Store, p: Pos, immediate: bool)
    requires SectorIndexed(st)
    ensures RemoveReady(st, p, immediate) <==> p in st.world && (immediate && p in st.shown ==> p in st.handles)
  {
    SectorListMembers(st, SectorOf(p), p);
  }

  /**
   Removing at once: `p` is no longer shown (nor drawn, if it was shown),
   every neighbour still in the world is now shown, and nothing else on
   screen changes.
   */
  lemma RemoveNowVisibility(st: Store, p: Pos)
    requires RemoveReady(st, p, true)
    ensures p !in AfterRemove(st, p, true).shown
    ensures p in st.shown ==> p !in AfterRemove(st, p, true).handles
    ensures forall k :: 0 <= k < 6 && Neighbor(p, k) in AfterRemove(st, p, true).world ==>
      Neighbor(p, k) in AfterRemove(st, p, true).shown
    ensures forall x :: x != p && !AmongFirst(p, x, 6) ==> SameAt(st, AfterRemove(st, p, true), x)
  {
    var s := SectorOf(p);
    var st1 := st.(world := st.world - {p}, sectors := st.sectors[s := RemoveFirst(st.sectors[s], p)]);
    var st2 := if p in st1.shown then AfterHide(st1, p, true) else st1;
    ExposedNextToEmpty(st2.world, p);
    var r := SettleFaces(st2, p, 6);
    assert r == AfterRemove(st, p, true);
    assert !AmongFirst(p, p, 6);
    assert SameAt(st2, r, p);
  }

  /** The stages of an immediate add: the store after placing `b`, and after showing `p` if exposed. */
  lemma AddNowStages(st: Store, p: Pos, b: Block) returns (st2: Store, st3: Store)
    requires AddReady(st, p, b, true)
    ensures st2 == Placed(st, p, b, true)
    ensures st3 == if Exposed(st2.world, p) then AfterShow(st2, p, true) else st2
    ensures forall k :: 0 <= k < 6 ==> HideSafe(st3, Neighbor(p, k))
    ensures AfterAdd(st, p, b, true) == SettleFaces(st3, p, 6)
    ensures SameAt(st3, AfterAdd(st, p, b, true), p)
  {
    st2 := Placed(st, p, b, true);
    st3 := if Exposed(st2.world, p) then AfterShow(st2, p, true) else st2;
    AddSettleReady(st, p, b, st2, st3);
    assert !AmongFirst(p, p, 6);
  }

  /**
   Adding at once: `b` is at `p`; when `p` was not left shown by a deferred
   removal, `p` ends up shown exactly when it is exposed; an exposed `p` is
   shown as `b` and drawn as `b`.
   */
  lemma AddNowShowsExposed(st: Store, p: Pos, b: Block)
    requires AddReady(st, p, b, true)
    ensures AfterAdd(st, p, b, true).world[p] == b
    ensures (p in st.shown ==> p in st.world) ==>
      (p in AfterAdd(st, p, b, true).shown <==> Exposed(AfterAdd(st, p, b, true).world, p))
    ensures Exposed(AfterAdd(st, p, b, true).world, p) ==>
      p in AfterAdd(st, p, b, true).shown && AfterAdd(st, p, b, true).shown[p] == b &&
      p in AfterAdd(st, p, b, true).handles && AfterAdd(st, p, b, true).handles[p] == MeshFor(p, b)
  {
    if p in st.world {
      RemoveNowVisibility(st, p);
    }
    var st2, st3 := AddNowStages(st, p, b);
  }

  /** Adding at once: every neighbour of `p` in the world ends up shown exactly when it is exposed. */
  lemma AddNowSettlesNeighbors(st: Store, p: Pos, b: Block)
    requires AddReady(st, p, b, true)
    ensures forall k :: 0 <= k < 6 && Neighbor(p, k) in AfterAdd(st, p, b, true).world ==>
      (Neighbor(p, k) in AfterAdd(st, p, b, true).shown <==> Exposed(AfterAdd(st, p, b, true).world, Neighbor(p, k)))
  {
    var st2, st3 := AddNowStages(st, p, b);
  }

  /** Adding at once changes nothing on screen except at `p` and its neighbours. */
  lemma AddNowFrame(st: Store, p: Pos, b: Block)
    requires AddReady(st, p, b, true)
    ensures forall x :: x != p && !AmongFirst(p, x, 6) ==> SameAt(st, AfterAdd(st, p, b, true), x)
  {
    if p in st.world {
      RemoveNowVisibility(st, p);
    }
    var st1 := if p in st.world then AfterRemove(st, p, true) else st;
    var st2, st3 := AddNowStages(st, p, b);
    forall x | x != p && !AmongFirst(p, x, 6)
      ensures SameAt(st, AfterAdd(st, p, b, true), x)
    {
      assert SameAt(st, st1, x);
      assert SameAt(st2, st3, x);
    }
  }

  // ---------------------------------------------------------------- what adding and removing keep

  /** Every shown position holds a block. */
  predicate ShownInWorld(st: Store)
  {
    st.shown.Keys <= st.world.Keys
  }

  /**
   In a drained store (nothing queued, every shown block drawn) adding and
   removing at once cannot fail: every drawing they erase exists.
   */
  lemma DrainedReady(st: Store, p: Pos, b: Block)
    requires Drained(st) && SectorIndexed(st)
    ensures p in st.world ==> RemoveReady(st, p, true)
    ensures AddReady(st, p, b, true)
  {
    SectorListMembers(st, SectorOf(p), p);
    assert st.shown.Keys == st.handles.Keys;
  }

  /** Adding and removing at once keep the store drained. */
  lemma ImmediateKeepsDrained(st: Store, p: Pos, b: Block)
    requires Drained(st)
    ensures RemoveReady(st, p, true) ==> Drained(AfterRemove(st, p, true))
    ensures AddReady(st, p, b, true) ==> Drained(AfterAdd(st, p, b, true))
  {
    if RemoveReady(st, p, true) {
      RemoveNowDrained(st, p);
    }
    if AddReady(st, p, b, true) {
      if p in st.world {
        RemoveNowDrained(st, p);
      }
      var st2, st3 := AddNowStages(st, p, b);
      ShowHideKeepRendered(st2, p);
    }
  }

  lemma RemoveNowDrained(st: Store, p: Pos)
    requires Drained(st) && RemoveReady(st, p, true)
    ensures Drained(AfterRemove(st, p, true))
  {
    var s := SectorOf(p);
    var st1 := st.(world := st.world - {p}, sectors := st.sectors[s := RemoveFirst(st.sectors[s], p)]);
    ShowHideKeepRendered(st1, p);
    var st2 := if p in st1.shown then AfterHide(st1, p, true) else st1;
    ExposedNextToEmpty(st2.world, p);
    assert AfterRemove(st, p, true) == SettleFaces(st2, p, 6);
  }

  /**
   Every shown position holds a block as long as removals are immediate:
   removing at once and adding in either mode keep it.
   */
  lemma ShownStaysInWorld(st: Store, p: Pos, b: Block, immediate: bool)
    requires ShownInWorld(st)
    ensures RemoveReady(st, p, true) ==> ShownInWorld(AfterRemove(st, p, true))
    ensures AddReady(st, p, b, immediate) && (immediate || p !in st.world) ==> ShownInWorld(AfterAdd(st, p, b, immediate))
  {
    if RemoveReady(st, p, true) {
      RemoveNowShownInWorld(st, p);
    }
    if AddReady(st, p, b, immediate) && (immediate || p !in st.world) {
      if p in st.world {
        RemoveNowShownInWorld(st, p);
      }
      var st2 := Placed(st, p, b, immediate);
      assert ShownInWorld(st2);
      if immediate {
        var st2', st3 := AddNowStages(st, p, b);
      }
    }
  }

  lemma RemoveNowShownInWorld(st: Store, p: Pos)
    requires ShownInWorld(st) && RemoveReady(st, p, true)
    ensures ShownInWorld(AfterRemove(st, p, true))
  {
    var s := SectorOf(p);
    var st1 := st.(world := st.world - {p}, sectors := st.sectors[s := RemoveFirst(st.sectors[s], p)]);
    var st2 := if p in st1.shown then AfterHide(st1, p, true) else st1;
    assert ShownInWorld(st2);
    ExposedNextToEmpty(st2.world, p);
    assert AfterRemove(st, p, true) == SettleFaces(st2, p, 6);
  }

  /**
   Removing without drawing leaves a shown block shown although its position
   is now empty, so shown blocks need not be in the world afterwards.
   */
  lemma DeferredRemoveLeavesShown(st: Store, p: Pos)
    requires RemoveReady(st, p, false) && p in st.shown
    ensures p in AfterRemove(st, p, false).shown && p !in AfterRemove(st, p, false).world
    ensures !ShownInWorld(AfterRemove(st, p, false))
  {
  }

  /** Putting `b` at `p` changes no other position and grows the map exactly when `p` was absent. */
  lemma PutBlock(w: map<Pos, Block>, p: Pos, b: Block)
    ensures w[p := b][p] == b
    ensures forall q :: q != p ==> (q in w[p := b] <==> q in w)
    ensures forall q :: q != p && q in w ==> w[p := b][q] == w[q]
    ensures |w[p := b]| == if p in w then |w| else |w| + 1
  {
    if p in w {
      assert w[p := b].Keys == w.Keys;
    } else {
      assert w[p := b].Keys == w.Keys + {p};
    }
  }

  /** Taking `p` out of a map holding it shrinks it by one and changes no other position. */
  lemma TakeBlock(w: map<Pos, Block>, p: Pos)
    requires p in w
    ensures p !in w - {p}
    ensures |w - {p}| == |w| - 1
    ensures forall q :: q != p && q in w ==> q in w - {p} && (w - {p})[q] == w[q]
  {
    assert (w - {p}).Keys == w.Keys - {p};
  }

  /**
   Adding: `b` is at `p` and every other position keeps its block; the world
   grows by one exactly when `p` was empty.
   */
  lemma AddWorld(st: Store, p: Pos, b: Block, immediate: bool)
    requires AddReady(st, p, b, immediate)
    ensures AfterAdd(st, p, b, immediate).world[p] == b
    ensures forall q :: q != p ==> (q in AfterAdd(st, p, b, immediate).world <==> q in st.world)
    ensures forall q :: q != p && q in st.world ==> AfterAdd(st, p, b, immediate).world[q] == st.world[q]
    ensures |AfterAdd(st, p, b, immediate).world| == if p in st.world then |st.world| else |st.world| + 1
  {
    PutBlock(st.world, p, b);
  }

  /** Removing takes `p` out of the world, shrinks it by one and keeps every other position's block. */
  lemma RemoveWorld(st: Store, p: Pos, immediate: bool)
    requires RemoveReady(st, p, immediate)
    ensures p !in AfterRemove(st, p, immediate).world
    ensures |AfterRemove(st, p, immediate).world| == |st.world| - 1
    ensures forall q :: q != p && q in st.world ==>
      q in AfterRemove(st, p, immediate).world && AfterRemove(st, p, immediate).world[q] == st.world[q]
  {
    TakeBlock(st.world, p);
  }

  // ---------------------------------------------------------------- sectors shown and hidden

  /** One step of showing a sector: `q` is queued for drawing unless already shown or not exposed. */
  function ShowStep(st: Store, q: Pos): Store
  {
    if q !in st.shown && Exposed(st.world, q) then AfterShow(st, q, false) else st
  }

  /** One step of hiding a sector: `q` is queued for erasing if it is shown. */
  function HideStep(st: Store, q: Pos): Store
  {
    if q in st.shown then AfterHide(st, q, false) else st
  }

  /**
   The store after the show steps for the first `k` positions of `ps`: world,
   sectors and drawings are unchanged; a position is shown afterwards exactly
   when it was shown before or is one of those positions, in the world and
   exposed; a newly shown position is shown as its block; the queue only grows.
   */
  function ShowUpTo(st: Store, ps: seq<Pos>, k: nat): (r: Store)
    requires k <= |ps|
    ensures r.world == st.world && r.sectors == st.sectors && r.handles == st.handles
    ensures forall q :: q in r.shown <==> q in st.shown || (q in ps[..k] && q in st.world && Exposed(st.world, q))
    ensures forall q :: q in r.shown ==> r.shown[q] == if q in st.shown then st.shown[q] else st.world[q]
    ensures |st.queue| <= |r.queue| && r.queue[..|st.queue|] == st.queue
    ensures Rendered(st) ==> Rendered(r)
  {
    if k == 0 then st
    else
      var s := ShowUpTo(st, ps, k - 1);
      assert ps[..k] == ps[..k - 1] + [ps[k - 1]];
      ShowHideKeepRendered(s, ps[k - 1]);
      ShowStep(s, ps[k - 1])
  }

  /**
   The store after the hide steps for the first `k` positions of `ps`: world,
   sectors and drawings are unchanged; a position is shown afterwards exactly
   when it was shown before and is not one of those positions, as the same
   block; the queue only grows.
   */
  function HideUpTo(st: Store, ps: seq<Pos>, k: nat): (r: Store)
    requires k <= |ps|
    ensures r.world == st.world && r.sectors == st.sectors && r.handles == st.handles
    ensures forall q :: q in r.shown <==> q in st.shown && q !in ps[..k]
    ensures forall q :: q in r.shown ==> r.shown[q] == st.shown[q]
    ensures |st.queue| <= |r.queue| && r.queue[..|st.queue|] == st.queue
    ensures Rendered(st) ==> Rendered(r)
  {
    if k == 0 then st
    else
      var s := HideUpTo(st, ps, k - 1);
      assert ps[..k] == ps[..k - 1] + [ps[k - 1]];
      ShowHideKeepRendered(s, ps[k - 1]);
      HideStep(s, ps[k - 1])
  }

  /** Showing sector `s`: the show steps over the positions recorded for it. */
  function AfterShowSector(st: Store, s: Pos): Store
  {
    ShowUpTo(st, SectorList(st, s), |SectorList(st, s)|)
  }

  /** Hiding sector `s`: the hide steps over the positions recorded for it. */
  function AfterHideSector(st: Store, s: Pos): Store
  {
    HideUpTo(st, SectorList(st, s), |SectorList(st, s)|)
  }

  /**
   Under an exact index, showing a sector shows exactly the exposed blocks of
   that sector that were not shown, and hiding it hides exactly the shown
   blocks of that sector; no other position changes.
   */
  lemma SectorShowHide(st: Store, s: Pos)
    requires SectorIndexed(st)
    ensures forall q :: q in AfterShowSector(st, s).shown <==>
      q in st.shown || (q in st.world && SectorOf(q) == s && Exposed(st.world, q))
    ensures forall q :: q in AfterHideSector(st, s).shown <==>
      q in st.shown && !(q in st.world && SectorOf(q) == s)
  {
    var ps := SectorList(st, s);
    assert ps[..|ps|] == ps;
    forall q
      ensures q in ps <==> q in st.world && SectorOf(q) == s
    {
      SectorListMembers(st, s, q);
    }
  }

  // ---------------------------------------------------------------- changing sectors

  /** Radius, in sectors, of the disk of sectors kept shown around the player. */
  const PAD: int := 4

  /** The square of offsets a disk is cut from. */
  predicate InPadSquare(dx: int, dz: int)
  {
    -PAD <= dx <= PAD && -PAD <= dz <= PAD
  }

  /**
   The sectors shown around sector `o`: those at horizontal offsets (dx, dz)
   with |dx|, |dz| <= 4 and dx^2 + dz^2 <= 25, at the same height; no sector
   at all when there is no sector.
   */
  function Disk(o: Option<Pos>): set<Pos>
  {
    match o
    case None => {}
    case Some(c) =>
      set dx: int, dz: int | -PAD <= dx <= PAD && -PAD <= dz <= PAD && Square(dx) + Square(dz) <= Square(PAD + 1) :: (c.0 + dx, c.1, c.2 + dz)
  }

  /** Membership in a disk, as the offsets from its centre. */
  lemma DiskMember(c: Pos, t: Pos)
    ensures t in Disk(Some(c)) <==>
      t.1 == c.1 && InPadSquare(t.0 - c.0, t.2 - c.2) &&
      Square(t.0 - c.0) + Square(t.2 - c.2) <= Square(PAD + 1)
  {
    if t.1 == c.1 && InPadSquare(t.0 - c.0, t.2 - c.2) &&
       Square(t.0 - c.0) + Square(t.2 - c.2) <= Square(PAD + 1) {
      assert t == (c.0 + (t.0 - c.0), c.1, c.2 + (t.2 - c.2));
    }
  }

  /** The disk's corners are cut off: (4, 4) is outside, (3, 4) and (4, 3) are inside. */
  lemma DiskCorners(c: Pos)
    ensures (c.0 + 4, c.1, c.2 + 4) !in Disk(Some(c))
    ensures (c.0 + 3, c.1, c.2 + 4) in Disk(Some(c)) && (c.0 + 4, c.1, c.2 + 3) in Disk(Some(c))
    ensures c in Disk(Some(c))
  {
    DiskMember(c, (c.0 + 4, c.1, c.2 + 4));
    DiskMember(c, (c.0 + 3, c.1, c.2 + 4));
    DiskMember(c, (c.0 + 4, c.1, c.2 + 3));
    DiskMember(c, c);
  }

  /**
   What moving from sector `before` to sector `after` does to the store:
   world, sectors and drawings are unchanged; the exposed blocks of the
   sectors newly in the disk become shown, the blocks of the sectors leaving
   the disk stop being shown, everything else keeps its state; the queue only
   grows, and the renderer stays in step.
   */
  ghost predicate SectorsChanged(st: Store, r: Store, before: Option<Pos>, after: Option<Pos>)
  {
    var entering := Disk(after) - Disk(before);
    var leaving := Disk(before) - Disk(after);
    r.world == st.world && r.sectors == st.sectors && r.handles == st.handles &&
    (forall q :: q in r.shown <==>
       (q in st.shown && !(q in st.world && SectorOf(q) in leaving)) ||
       (q in st.world && SectorOf(q) in entering && Exposed(st.world, q))) &&
    |st.queue| <= |r.queue| && r.queue[..|st.queue|] == st.queue &&
    (Rendered(st) ==> Rendered(r))
  }

  /** Moving between equal sectors changes nothing at all. */
  lemma SameSectorUnchanged(st: Store, r: Store, o: Option<Pos>)
    requires SectorsChanged(st, r, o, o)
    requires |r.queue| == |st.queue|
    ensures r.shown.Keys == st.shown.Keys && r.queue == st.queue
  {
    assert r.queue == r.queue[..|st.queue|];
  }

  // ---------------------------------------------------------------- the queue

  /** The oldest queued operation can run. */
  predicate HeadRunnable(st: Store)
  {
    st.queue != [] && (st.queue[0].HideOp? ==> st.queue[0].pos in st.handles)
  }

  /** Running the oldest queued operation. */
  function AfterDequeue(st: Store): Store
    requires HeadRunnable(st)
  {
    st.(handles := RunOp(st.handles, st.queue[0]), queue := st.queue[1..])
  }

  /** Running the oldest operation keeps the renderer in step and shortens the queue by one. */
  lemma DequeueKeepsRendered(st: Store)
    requires Rendered(st) && st.queue != []
    ensures HeadRunnable(st)
    ensures Rendered(AfterDequeue(st))
    ensures |AfterDequeue(st).queue| == |st.queue| - 1
  {
  }

  /** Running up to `n` queued operations, oldest first; fewer when the queue runs out. */
  function AfterRun(st: Store, n: nat): Store
    requires Runnable(st.handles, st.queue)
    decreases n
  {
    if n == 0 || st.queue == [] then st else AfterRun(AfterDequeue(st), n - 1)
  }

  /** Running the oldest m operations is running the first one, then the m - 1 after it. */
  lemma RunPrefixStep(h: map<Pos, Mesh>, q: seq<Op>, m: nat)
    requires 0 < m <= |q| && (q[0].HideOp? ==> q[0].pos in h)
    requires Runnable(RunOp(h, q[0]), q[1..][..m - 1])
    ensures Runnable(h, q[..m]) && RunOps(h, q[..m]) == RunOps(RunOp(h, q[0]), q[1..][..m - 1])
    ensures q[m..] == q[1..][m - 1..]
  {
    var rest := q[1..][..m - 1];
    assert q[..m] == [q[0]] + rest;
    RunOne(h, q[0]);
    RunOpsAppend(h, [q[0]], rest);
  }

  /**
   Running `n` operations runs exactly the oldest `n` of them (all of them
   when fewer are queued) and leaves the rest queued in order.
   */
  lemma {:induction false} AfterRunPrefix(st: Store, n: nat)
    requires Runnable(st.handles, st.queue)
    ensures var m := if n < |st.queue| then n else |st.queue|;
      Runnable(st.handles, st.queue[..m]) &&
      AfterRun(st, n) == st.(handles := RunOps(st.handles, st.queue[..m]), queue := st.queue[m..])
    decreases n
  {
    var m := if n < |st.queue| then n else |st.queue|;
    if n == 0 || st.queue == [] {
      assert st.queue[..m] == [] && st.queue[m..] == st.queue;
    } else {
      var d := AfterDequeue(st);
      AfterRunPrefix(d, n - 1);
      RunPrefixStep(st.handles, st.queue, m);
    }
  }

  /** Running at least as many operations as are queued drains a rendered store. */
  lemma RunAllDrains(st: Store, n: nat)
    requires Rendered(st) && n >= |st.queue|
    ensures Drained(AfterRun(st, n))
  {
    AfterRunPrefix(st, n);
    assert st.queue[..|st.queue|] == st.queue;
  }

  /** Running queued operations keeps a rendered store rendered. */
  lemma {:induction false} RunKeepsRendered(st: Store, n: nat)
    requires Rendered(st)
    ensures Rendered(AfterRun(st, n))
    decreases n
  {
    if n > 0 && st.queue != [] {
      DequeueKeepsRendered(st);
      RunKeepsRendered(AfterDequeue(st), n - 1);
    }
  }

  /** Processing is resumable: running `n` and then `m` operations is running `n + m`. */
  lemma {:induction false} AfterRunAdd(st: Store, n: nat, m: nat)
    requires Runnable(st.handles, st.queue)
    ensures Runnable(AfterRun(st, n).handles, AfterRun(st, n).queue)
    ensures AfterRun(AfterRun(st, n), m) == AfterRun(st, n + m)
    decreases n
  {
    if n > 0 && st.queue != [] {
      AfterRunAdd(AfterDequeue(st), n - 1, m);
    }
  }

  // ---------------------------------------------------------------- placing many blocks

  /** The world after writing each placement of `ps` in order; a later placement at a position wins. */
  function WorldAfter(world: map<Pos, Block>, ps: seq<Placement>): map<Pos, Block>
  {
    if ps == [] then world else WorldAfter(world, ps[..|ps| - 1])[ps[|ps| - 1].1 := ps[|ps| - 1].0]
  }

  /**
   Adding `b` at `p` without drawing: the world maps `p` to `b` and `p` is
   moved to the end of its sector's list; nothing is shown, erased or queued.
   */
  function Put(st: Store, p: Pos, b: Block): (r: Store)
    ensures r.world == st.world[p := b]
    ensures r.shown == st.shown && r.handles == st.handles && r.queue == st.queue
  {
    var s := SectorOf(p);
    var xs := if p in st.world then RemoveFirst(SectorList(st, s), p) else SectorList(st, s);
    st.(world := st.world[p := b], sectors := st.sectors[s := xs + [p]])
  }

  /** Under an exact index, a deferred add is always possible, is Put, and keeps the index exact. */
  lemma PutIsAdd(st: Store, p: Pos, b: Block)
    requires SectorIndexed(st)
    ensures AddReady(st, p, b, false)
    ensures AfterAdd(st, p, b, false) == Put(st, p, b)
    ensures SectorIndexed(Put(st, p, b))
  {
    RemoveReadyIndexed(st, p, false);
    PutIsPlaced(st, p, b);
    AddKeepsIndex(st, p, b, false);
  }

  lemma PutIsPlaced(st: Store, p: Pos, b: Block)
    requires AddReady(st, p, b, false)
    ensures Placed(st, p, b, false) == Put(st, p, b)
  {
    var s := SectorOf(p);
    if p in st.world {
      var st1 := AfterRemove(st, p, false);
      assert s in st.sectors;
      assert SectorList(st1, s) == RemoveFirst(SectorList(st, s), p);
    }
  }

  /** The store after adding every placement of `ps` in order, none of them drawn. */
  function PlaceAll(st: Store, ps: seq<Placement>): (r: Store)
    ensures r.world == WorldAfter(st.world, ps)
    ensures r.shown == st.shown && r.handles == st.handles && r.queue == st.queue
  {
    if ps == [] then st
    else
      var e := ps[|ps| - 1];
      Put(PlaceAll(st, ps[..|ps| - 1]), e.1, e.0)
  }

  /** Placing keeps the sector index exact. */
  lemma {:induction false} PlaceAllIndexed(st: Store, ps: seq<Placement>)
    requires SectorIndexed(st)
    ensures SectorIndexed(PlaceAll(st, ps))
  {
    if ps != [] {
      var e := ps[|ps| - 1];
      PlaceAllIndexed(st, ps[..|ps| - 1]);
      PutIsAdd(PlaceAll(st, ps[..|ps| - 1]), e.1, e.0);
    }
  }

  /**
   Placement i of `ps`, made after the ones before it, is the next step of
   PlaceAll, and it is a deferred add that is always possible.
   */
  lemma PlaceNext(st: Store, ps: seq<Placement>, i: nat)
    requires SectorIndexed(st) && i < |ps|
    ensures AddReady(PlaceAll(st, ps[..i]), ps[i].1, ps[i].0, false)
    ensures AfterAdd(PlaceAll(st, ps[..i]), ps[i].1, ps[i].0, false) == PlaceAll(st, ps[..i + 1])
  {
    assert ps[..i + 1][..i] == ps[..i];
    PlaceAllIndexed(st, ps[..i]);
    PutIsAdd(PlaceAll(st, ps[..i]), ps[i].1, ps[i].0);
  }

  /** Placement i of `ps` takes store i of `stores` to store i + 1 by a deferred add. */
  predicate StepsAlong(stores: seq<Store>, ps: seq<Placement>)
  {
    && |stores| == |ps| + 1
    && forall i {:trigger AddReady(stores[i], ps[i].1, ps[i].0, false)} {:trigger AfterAdd(stores[i], ps[i].1, ps[i].0, false)} :: 0 <= i < |ps| ==>
         AddReady(stores[i], ps[i].1, ps[i].0, false) && AfterAdd(stores[i], ps[i].1, ps[i].0, false) == stores[i + 1]
  }

  /**
   From an exact index, after the placements `done`, placing `ps` in order
   passes through the stores `stores`, one deferred add per placement, from
   PlaceAll(st, done) to PlaceAll(st, done + ps).
   */
  lemma StepsFrom(st: Store, done: seq<Placement>, ps: seq<Placement>) returns (stores: seq<Store>)
    requires SectorIndexed(st)
    ensures StepsAlong(stores, ps) && stores[0] == PlaceAll(st, done) && stores[|ps|] == PlaceAll(st, done + ps)
  {
    var st1 := PlaceAll(st, done);
    PlaceAllIndexed(st, done);
    stores := seq(|ps| + 1, i requires 0 <= i <= |ps| => PlaceAll(st1, ps[..i]));
    forall i | 0 <= i < |ps|
      ensures AddReady(stores[i], ps[i].1, ps[i].0, false) && AfterAdd(stores[i], ps[i].1, ps[i].0, false) == stores[i + 1]
    {
      PlaceNext(st1, ps, i);
    }
    assert ps[..|ps|] == ps;
    PlaceAllAppend(st, done, ps);
  }

  /** From an exact index, placing `ps` in order passes through `stores`, from `st` to PlaceAll(st, ps). */
  lemma StepsFromStart(st: Store, ps: seq<Placement>) returns (stores: seq<Store>)
    requires SectorIndexed(st)
    ensures StepsAlong(stores, ps) && stores[0] == st && stores[|ps|] == PlaceAll(st, ps)
  {
    stores := StepsFrom(st, [], ps);
    assert [] + ps == ps;
  }

  /** The placements `xs` stand in `ps` from index k on. */
  predicate At(ps: seq<Placement>, k: nat, xs: seq<Placement>)
  {
    k + |xs| <= |ps| && forall i :: 0 <= i < |xs| ==> ps[k + i] == xs[i]
  }

  /** Where a list stands, so does each start of it, and the part after a start follows it. */
  lemma AtSplit(ps: seq<Placement>, k: nat, a: seq<Placement>, b: seq<Placement>, whole: seq<Placement>)
    requires At(ps, k, whole) && a + b <= whole
    ensures At(ps, k, a) && At(ps, k + |a|, b)
  {
    forall i | 0 <= i < |a|
      ensures ps[k + i] == a[i]
    {
      assert a[i] == (a + b)[i] == whole[i];
    }
    forall i | 0 <= i < |b|
      ensures ps[k + |a| + i] == b[i]
    {
      assert b[i] == (a + b)[|a| + i] == whole[|a| + i];
    }
  }

  /** A list stands in itself from index 0 on. */
  lemma AtWhole(ps: seq<Placement>)
    ensures At(ps, 0, ps)
  {
    forall i | 0 <= i < |ps|
      ensures ps[0 + i] == ps[i]
    {
    }
  }

  /** The first placement of a list standing at k is placement k. */
  lemma AtFirst(ps: seq<Placement>, k: nat, xs: seq<Placement>)
    requires At(ps, k, xs) && xs != []
    ensures ps[k] == xs[0]
  {
    assert ps[k + 0] == xs[0];
  }

  lemma {:induction false} WorldAfterAppend(world: map<Pos, Block>, a: seq<Placement>, c: seq<Placement>)
    ensures WorldAfter(world, a + c) == WorldAfter(WorldAfter(world, a), c)
    decreases |c|
  {
    if c == [] {
      assert a + c == a;
    } else {
      assert (a + c)[..|a + c| - 1] == a + c[..|c| - 1];
      WorldAfterAppend(world, a, c[..|c| - 1]);
    }
  }

  /** Placing in two runs is placing the runs one after the other. */
  lemma {:induction false} PlaceAllAppend(st: Store, a: seq<Placement>, c: seq<Placement>)
    ensures PlaceAll(st, a + c) == PlaceAll(PlaceAll(st, a), c)
    decreases |c|
  {
    if c == [] {
      assert a + c == a;
    } else {
      assert (a + c)[..|a + c| - 1] == a + c[..|c| - 1];
      PlaceAllAppend(st, a, c[..|c| - 1]);
    }
  }

  /**
   Placing fills exactly the placed positions: a position is in the world
   afterwards exactly when it was before or some placement names it, and a
   position no placement names keeps its block.
   */
  lemma {:induction false} WorldAfterUntouched(world: map<Pos, Block>, ps: seq<Placement>, p: Pos)
    ensures p in WorldAfter(world, ps) <==> p in world || exists i :: 0 <= i < |ps| && ps[i].1 == p
    ensures (forall i :: 0 <= i < |ps| ==> ps[i].1 != p) && p in world ==> WorldAfter(world, ps)[p] == world[p]
  {
    if ps != [] {
      var a := ps[..|ps| - 1];
      WorldAfterUntouched(world, a, p);
      if exists i :: 0 <= i < |a| && a[i].1 == p {
        var i :| 0 <= i < |a| && a[i].1 == p;
        assert ps[i].1 == p;
      }
      if exists i :: 0 <= i < |ps| && ps[i].1 == p {
        var i :| 0 <= i < |ps| && ps[i].1 == p;
        if i < |a| {
          assert a[i].1 == p;
        }
      }
    }
  }

  /** A position that every placement naming it gives kind `b`, and some does, ends up holding `b`. */
  lemma {:induction false} WorldAfterUniform(world: map<Pos, Block>, ps: seq<Placement>, p: Pos, b: Block)
    requires (b, p) in ps
    requires forall e :: e in ps && e.1 == p ==> e.0 == b
    ensures p in WorldAfter(world, ps) && WorldAfter(world, ps)[p] == b
  {
    var a := ps[..|ps| - 1];
    if ps[|ps| - 1].1 != p {
      assert ps == a + [ps[|ps| - 1]];
      assert (b, p) in a;
      WorldAfterUniform(world, a, p, b);
    }
  }
}
