/**
 * The sparse chunked voxel index: chunks that own the voxels of a 64^3 cell,
 * and the world that maps chunk grid positions to chunks.
 */
module World {
  import opened Wrappers
  import opened Vectors
  import opened WorldCoords
  import opened Instances

  /** `HostVoxel`: its `scale` (an `f32` in `HostVoxel::scale`, a real here) and its material index. */
  datatype Voxel = Voxel(scale: real, materialIndex: nat)

  /** A position local to a chunk: every axis below CHUNK_WIDTH. */
  predicate IsLocal(position: UVec3) {
    position.x < CHUNK_WIDTH && position.y < CHUNK_WIDTH && position.z < CHUNK_WIDTH
  }

  function Pow2(n: nat): (r: nat)
    ensures r >= 1
  {
    if n == 0 then 1 else 2 * Pow2(n - 1)
  }

  /** v is a multiple of 2^n, tested one halving at a time. */
  predicate DivisibleByPow2(v: nat, n: nat) {
    n == 0 || (v % 2 == 0 && DivisibleByPow2(v / 2, n - 1))
  }

  /** The halving test is the remainder test `v % 2^n == 0` that `Chunk::to_instances` applies per axis. */
  lemma {:induction false} DivisibleByPow2IsRemainder(v: nat, n: nat)
    ensures DivisibleByPow2(v, n) <==> v % Pow2(n) == 0
  {
    if n > 0 {
      DivisibleByPow2IsRemainder(v / 2, n - 1);
      HalvedRemainder(v, Pow2(n - 1));
    }
  }

  /** v is a multiple of 2p exactly when it is even and its half is a multiple of p. */
  lemma HalvedRemainder(v: nat, p: nat)
    requires p >= 1
    ensures v % (2 * p) == 0 <==> v % 2 == 0 && (v / 2) % p == 0
  {
    var w, b := v / 2, v % 2;
    var q, m := w / p, w % p;
    var pq := p * q;
    assert w == pq + m && 0 <= m < p;
    assert (2 * p) * q == 2 * pq by {
      MulDouble(p, q);
    }
    assert v == (2 * p) * q + (2 * m + b);
    DivModUnique(v, 2 * p, q, 2 * m + b);
  }

  lemma MulDouble(p: int, q: int)
    ensures (2 * p) * q == 2 * (p * q)
  {
  }

  lemma DivModUnique(a: int, d: int, q: int, r: int)
    requires d > 0 && a == d * q + r && 0 <= r < d
    ensures a / d == q && a % d == r
  {
    var q', r' := a / d, a % d;
    assert a == d * q' + r' && 0 <= r' < d;
    assert d * (q - q') == r' - r by {
      assert d * (q - q') == d * q - d * q';
    }
    if q' < q {
      MulAtLeast(d, q - q');
    } else if q' > q {
      MulAtLeast(d, q' - q);
    }
  }

  lemma MulAtLeast(d: nat, k: int)
    requires k >= 1
    ensures d * k >= d
  {
    assert d * k == d * (k - 1) + d;
  }

  /** The level-of-detail stride filter: every local axis divisible by 2^lod. */
  predicate LodAligned(position: UVec3, lod: nat) {
    DivisibleByPow2(position.x, lod) && DivisibleByPow2(position.y, lod) && DivisibleByPow2(position.z, lod)
  }

  /** The offset added to every translation axis at a level of detail: the sum of s / 2 for s < lod. */
  function LodOffset(lod: nat): real {
    if lod == 0 then 0.0 else LodOffset(lod - 1) + (lod - 1) as real / 2.0
  }

  /** The world position of a local position in the chunk at `grid`. */
  function WorldPosition(grid: IVec3, local: UVec3): IVec3 {
    Add(Scale(grid, CHUNK_WIDTH), Signed(local))
  }

  /** What the instance of the voxel `voxel` at `local` in a chunk at `grid` carries. */
  ghost predicate InstanceOfVoxel(
    instance: Instance, local: UVec3, voxel: Voxel, lod: nat, grid: IVec3, blasReference: nat, visible: bool)
  {
    && instance.blasReference == blasReference
    && instance.customIndex == voxel.materialIndex
    && instance.mask == (if visible then VISIBLE_MASK else HIDDEN_MASK)
    && instance.transform.translation == WorldPosition(grid, local)
    && instance.transform.scale == voxel.scale
    && instance.transform.stride == Pow2(lod)
    && instance.transform.offset == LodOffset(lod)
  }

  /** No element occurs twice. */
  ghost predicate NoDuplicates<T>(s: seq<T>) {
    forall i, j :: 0 <= i < j < |s| ==> s[i] != s[j]
  }

  /** `order` lists every key of `keys` exactly once: a hash-map iteration order. */
  ghost predicate IsEnumeration<K(!new)>(order: seq<K>, keys: set<K>) {
    NoDuplicates(order) && (forall k :: k in order <==> k in keys)
  }

  class Chunk {
    var visible: bool
    var voxels: map<UVec3, Voxel>

    /** Only local positions are ever stored. */
    ghost predicate Valid()
      reads this
    {
      forall position :: position in voxels ==> IsLocal(position)
    }

    /** `Chunk::default`: visible and empty. */
    constructor ()
      ensures Valid() && visible && voxels == map[]
    {
      visible := true;
      voxels := map[];
    }

    method SetVisible(value: bool)
      modifies this
      ensures visible == value && voxels == old(voxels)
    {
      visible := value;
    }

    predicate Empty()
      reads this
    {
      |voxels| == 0
    }

    predicate Contains(position: UVec3)
      reads this
    {
      position in voxels
    }

    /**
     * Stores `voxel` at `position` unless that position is occupied. A position
     * outside the chunk panics.
     */
    method Insert(position: UVec3, voxel: Voxel) returns (r: Fallible<bool>)
      requires Valid()
      modifies this
      ensures Valid() && visible == old(visible)
      ensures !IsLocal(position) ==> r == Panicked(OutsideChunk) && voxels == old(voxels)
      ensures IsLocal(position) ==> r == Done(position !in old(voxels))
      ensures IsLocal(position) && position in old(voxels) ==> voxels == old(voxels)
      ensures IsLocal(position) && position !in old(voxels) ==> voxels == old(voxels)[position := voxel]
    {
      if !IsLocal(position) {
        return Panicked(OutsideChunk);
      }
      if position in voxels {
        return Done(false);
      }
      voxels := voxels[position := voxel];
      r := Done(true);
    }

    /**
     * The local positions that survive the level-of-detail filter, in the
     * iteration order `order` of the voxel map.
     */
    function KeptLocals(lod: nat, order: seq<UVec3>): (kept: seq<UVec3>)
      reads this
      ensures forall local :: local in kept <==> local in order && local in voxels && LodAligned(local, lod)
    {
      if order == [] then []
      else
        var rest := KeptLocals(lod, order[1..]);
        if order[0] in voxels && LodAligned(order[0], lod) then [order[0]] + rest else rest
    }

    /** Filtering an iteration order that repeats no key keeps no key twice. */
    lemma {:induction false} KeptLocalsDistinct(lod: nat, order: seq<UVec3>)
      requires NoDuplicates(order)
      ensures NoDuplicates(KeptLocals(lod, order))
    {
      if order != [] {
        KeptLocalsDistinct(lod, order[1..]);
        var rest, kept := KeptLocals(lod, order[1..]), KeptLocals(lod, order);
        assert order[0] !in order[1..];
        if !(order[0] in voxels && LodAligned(order[0], lod)) {
          assert kept == rest;
        } else {
          assert kept == [order[0]] + rest;
          assert order[0] !in rest;
          forall i, j | 0 <= i < j < |kept|
            ensures kept[i] != kept[j]
          {
            assert kept[j] == rest[j - 1] && rest[j - 1] in rest;
            if i == 0 {
              assert kept[i] == order[0];
            } else {
              assert kept[i] == rest[i - 1];
            }
          }
        }
      }
    }

    /**
     * `Chunk::to_instances`, walking the voxel map in the iteration order
     * `order`: one instance per kept voxel, carrying its material index, the
     * chunk's visibility mask and its world position.
     */
    function ToInstances(lod: nat, gridPosition: IVec3, blasReference: nat, order: seq<UVec3>): (r: seq<Instance>)
      reads this
      ensures var kept := KeptLocals(lod, order);
        && |r| == |kept|
        && forall i :: 0 <= i < |r| ==>
             kept[i] in voxels &&
             InstanceOfVoxel(r[i], kept[i], voxels[kept[i]], lod, gridPosition, blasReference, visible)
    {
      if order == [] then []
      else
        var local := order[0];
        var rest := ToInstances(lod, gridPosition, blasReference, order[1..]);
        if local in voxels && LodAligned(local, lod) then
          var voxel := voxels[local];
          var instance := Instance(
            blasReference,
            voxel.materialIndex,
            if visible then VISIBLE_MASK else HIDDEN_MASK,
            Transform(voxel.scale, Pow2(lod), WorldPosition(gridPosition, local), LodOffset(lod)));
          assert KeptLocals(lod, order) == [local] + KeptLocals(lod, order[1..]);
          PrependInstance(instance, rest, local, KeptLocals(lod, order[1..]), lod, gridPosition, blasReference);
          [instance] + rest
        else
          assert KeptLocals(lod, order) == KeptLocals(lod, order[1..]);
          rest
    }

    /** Prepending the instance of one more voxel keeps instances and voxels paired up. */
    lemma PrependInstance(
      instance: Instance, rest: seq<Instance>, local: UVec3, restKept: seq<UVec3>,
      lod: nat, gridPosition: IVec3, blasReference: nat)
      requires local in voxels
      requires InstanceOfVoxel(instance, local, voxels[local], lod, gridPosition, blasReference, visible)
      requires |rest| == |restKept|
      requires forall i :: 0 <= i < |rest| ==>
        restKept[i] in voxels &&
        InstanceOfVoxel(rest[i], restKept[i], voxels[restKept[i]], lod, gridPosition, blasReference, visible)
      ensures var r, kept := [instance] + rest, [local] + restKept;
        forall i :: 0 <= i < |r| ==>
          kept[i] in voxels &&
          InstanceOfVoxel(r[i], kept[i], voxels[kept[i]], lod, gridPosition, blasReference, visible)
    {
      var r, kept := [instance] + rest, [local] + restKept;
      forall i | 0 <= i < |r|
        ensures kept[i] in voxels &&
          InstanceOfVoxel(r[i], kept[i], voxels[kept[i]], lod, gridPosition, blasReference, visible)
      {
        if i > 0 {
          assert r[i] == rest[i - 1] && kept[i] == restKept[i - 1];
        }
      }
    }

    /** Every aligned voxel has an instance at its world position. */
    ghost predicate CoversAligned(r: seq<Instance>, lod: nat, gridPosition: IVec3)
      reads this
    {
      forall local :: local in voxels && LodAligned(local, lod) ==> HasInstanceAt(r, WorldPosition(gridPosition, local))
    }

    /** Every instance is the instance of an aligned voxel. */
    ghost predicate ComesFromAligned(r: seq<Instance>, lod: nat, gridPosition: IVec3, blasReference: nat)
      reads this
    {
      forall i :: 0 <= i < |r| ==>
        exists local :: local in voxels && LodAligned(local, lod) &&
          InstanceOfVoxel(r[i], local, voxels[local], lod, gridPosition, blasReference, visible)
    }

    /**
     * When `order` enumerates the voxel map, the instances are exactly the
     * aligned voxels, each once: an aligned voxel has an instance at its
     * world position, every instance stands at an aligned voxel, and no two
     * instances share a position.
     */
    lemma ToInstancesExact(lod: nat, gridPosition: IVec3, blasReference: nat, order: seq<UVec3>)
      requires IsEnumeration(order, voxels.Keys)
      ensures CoversAligned(ToInstances(lod, gridPosition, blasReference, order), lod, gridPosition)
      ensures ComesFromAligned(ToInstances(lod, gridPosition, blasReference, order), lod, gridPosition, blasReference)
      ensures DistinctPositions(ToInstances(lod, gridPosition, blasReference, order))
    {
      ToInstancesCoverAligned(lod, gridPosition, blasReference, order);
      ToInstancesComeFromAligned(lod, gridPosition, blasReference, order);
      ToInstancesDistinct(lod, gridPosition, blasReference, order);
    }

    lemma ToInstancesCoverAligned(lod: nat, gridPosition: IVec3, blasReference: nat, order: seq<UVec3>)
      requires forall local :: local in voxels ==> local in order
      ensures CoversAligned(ToInstances(lod, gridPosition, blasReference, order), lod, gridPosition)
    {
      var r := ToInstances(lod, gridPosition, blasReference, order);
      var kept := KeptLocals(lod, order);
      forall local | local in voxels && LodAligned(local, lod)
        ensures HasInstanceAt(r, WorldPosition(gridPosition, local))
      {
        assert local in kept;
        var i :| 0 <= i < |kept| && kept[i] == local;
        assert r[i].transform.translation == WorldPosition(gridPosition, local);
      }
    }

    lemma ToInstancesComeFromAligned(lod: nat, gridPosition: IVec3, blasReference: nat, order: seq<UVec3>)
      ensures ComesFromAligned(ToInstances(lod, gridPosition, blasReference, order), lod, gridPosition, blasReference)
    {
      var r := ToInstances(lod, gridPosition, blasReference, order);
      var kept := KeptLocals(lod, order);
      forall i | 0 <= i < |r|
        ensures exists local :: local in voxels && LodAligned(local, lod) &&
                  InstanceOfVoxel(r[i], local, voxels[local], lod, gridPosition, blasReference, visible)
      {
        assert kept[i] in kept;
        assert InstanceOfVoxel(r[i], kept[i], voxels[kept[i]], lod, gridPosition, blasReference, visible);
      }
    }

    lemma ToInstancesDistinct(lod: nat, gridPosition: IVec3, blasReference: nat, order: seq<UVec3>)
      requires NoDuplicates(order)
      ensures DistinctPositions(ToInstances(lod, gridPosition, blasReference, order))
    {
      var r := ToInstances(lod, gridPosition, blasReference, order);
      var kept := KeptLocals(lod, order);
      KeptLocalsDistinct(lod, order);
      ToInstancesTranslations(lod, gridPosition, blasReference, order);
      forall i, j | 0 <= i < j < |r|
        ensures r[i].transform.translation != r[j].transform.translation
      {
        assert kept[i] != kept[j];
      }
    }

    /** The translation of instance i is the world position of the i-th kept voxel. */
    lemma ToInstancesTranslations(lod: nat, gridPosition: IVec3, blasReference: nat, order: seq<UVec3>)
      ensures var r, kept := ToInstances(lod, gridPosition, blasReference, order), KeptLocals(lod, order);
        |r| == |kept| &&
        forall i :: 0 <= i < |r| ==> r[i].transform.translation == WorldPosition(gridPosition, kept[i])
    {
      var r, kept := ToInstances(lod, gridPosition, blasReference, order), KeptLocals(lod, order);
      forall i | 0 <= i < |r|
        ensures r[i].transform.translation == WorldPosition(gridPosition, kept[i])
      {
        assert InstanceOfVoxel(r[i], kept[i], voxels[kept[i]], lod, gridPosition, blasReference, visible);
      }
    }
  }

  /** No two instances stand at the same position. */
  predicate DistinctPositions(r: seq<Instance>) {
    forall i, j :: 0 <= i < j < |r| ==> r[i].transform.translation != r[j].transform.translation
  }

  /** Some instance stands at `position`. */
  ghost predicate HasInstanceAt(r: seq<Instance>, position: IVec3) {
    exists i :: 0 <= i < |r| && r[i].transform.translation == position
  }

  /** Distinct grid positions own distinct chunk objects, as the owning hash map guarantees. */
  ghost predicate Distinct(chunks: map<IVec3, Chunk>) {
    forall g, h :: g in chunks && h in chunks && g != h ==> chunks[g] != chunks[h]
  }

  ghost predicate AllValid(chunks: map<IVec3, Chunk>)
    reads chunks.Values
  {
    forall g :: g in chunks ==> chunks[g].Valid()
  }

  /** The voxel stored at a world position, if any: the world content that the chunks represent. */
  function Lookup(chunks: map<IVec3, Chunk>, position: IVec3): Option<Voxel>
    reads chunks.Values
  {
    match TranslationToPosition(position)
    case Panicked(_) => None
    case Done((grid, local)) =>
      if grid in chunks && local in chunks[grid].voxels then Some(chunks[grid].voxels[local]) else None
  }

  /** The chunk that owns an in-bounds position, as a frame. */
  function Owner(chunks: map<IVec3, Chunk>, position: IVec3): set<Chunk> {
    if InBounds(position) && GridOf(position) in chunks then {chunks[GridOf(position)]} else {}
  }

  /**
   * `Chunks::insert_voxel`: stores a voxel at a world position unless it is
   * occupied. Returns the grid position of the chunk that took it, or None
   * when the position was occupied. Out-of-bounds positions and missing chunks panic.
   */
  method InsertVoxel(chunks: map<IVec3, Chunk>, position: IVec3, voxel: Voxel) returns (r: Fallible<Option<IVec3>>)
    requires Distinct(chunks) && AllValid(chunks)
    modifies Owner(chunks, position)
    ensures AllValid(chunks)
    ensures !InBounds(position) ==> r == Panicked(OutOfBounds)
    ensures InBounds(position) && GridOf(position) !in chunks ==> r == Panicked(MissingChunk)
    ensures InBounds(position) && GridOf(position) in chunks ==>
      r == Done(if old(Lookup(chunks, position)).Some? then None else Some(GridOf(position)))
    ensures forall g :: g in chunks ==> chunks[g].visible == old(chunks[g].visible)
    ensures forall q ::
              Lookup(chunks, q) ==
              (if r.Done? && r.value.Some? && q == position then Some(voxel) else old(Lookup(chunks, q)))
  {
    var split := TranslationToPosition(position);
    if split.Panicked? {
      return Panicked(split.reason);
    }
    var (grid, local) := split.value;
    if grid !in chunks {
      return Panicked(MissingChunk);
    }
    var chunk := chunks[grid];
    var inserted := chunk.Insert(local, voxel);
    if !inserted.value {
      return Done(None);
    }
    r := Done(Some(grid));
    forall q
      ensures Lookup(chunks, q) == if q == position then Some(voxel) else old(Lookup(chunks, q))
    {
      if InBounds(q) && TranslationToPosition(q) == split {
        TranslationInjective(q, position);
      }
    }
  }

  /** `Chunks::create_empty_chunks`: a fresh, visible, empty chunk for every grid cell in [-64, 64)^3. */
  method CreateEmptyChunks() returns (chunks: map<IVec3, Chunk>)
    ensures forall g :: g in chunks <==> IsGridCell(g)
    ensures Distinct(chunks) && AllValid(chunks)
    ensures forall g :: g in chunks ==> fresh(chunks[g]) && chunks[g].visible && chunks[g].voxels == map[]
  {
    chunks := map[];
    var x := -WORLD_WIDTH;
    while x < WORLD_WIDTH
      invariant -WORLD_WIDTH <= x <= WORLD_WIDTH
      invariant forall g :: g in chunks <==> IsGridCell(g) && g.x < x
      invariant Distinct(chunks)
      invariant forall g :: g in chunks ==> fresh(chunks[g]) && chunks[g].visible && chunks[g].voxels == map[]
    {
      var y := -WORLD_HEIGHT;
      while y < WORLD_HEIGHT
        invariant -WORLD_HEIGHT <= y <= WORLD_HEIGHT
        invariant forall g :: g in chunks <==> IsGridCell(g) && (g.x < x || (g.x == x && g.y < y))
        invariant Distinct(chunks)
        invariant forall g :: g in chunks ==> fresh(chunks[g]) && chunks[g].visible && chunks[g].voxels == map[]
      {
        var z := -WORLD_DEPTH;
        while z < WORLD_DEPTH
          invariant -WORLD_DEPTH <= z <= WORLD_DEPTH
          invariant forall g :: g in chunks <==>
            IsGridCell(g) && (g.x < x || (g.x == x && g.y < y) || (g.x == x && g.y == y && g.z < z))
          invariant Distinct(chunks)
          invariant forall g :: g in chunks ==> fresh(chunks[g]) && chunks[g].visible && chunks[g].voxels == map[]
        {
          var chunk := new Chunk();
          chunks := chunks[IVec3(x, y, z) := chunk];
          z := z + 1;
        }
        y := y + 1;
      }
      x := x + 1;
    }
  }

  /** A world in which every grid cell has its chunk, as `create_empty_chunks` builds it. */
  ghost predicate FullGrid(chunks: map<IVec3, Chunk>) {
    forall g :: IsGridCell(g) ==> g in chunks
  }

  /** The local positions that come before (x, y, z) in x-then-y-then-z order. */
  predicate Before(p: UVec3, x: nat, y: nat, z: nat) {
    p.x < x || (p.x == x && (p.y < y || (p.y == y && p.z < z)))
  }

  /**
   * Inserting into every local slot of an empty chunk, x then y then z,
   * leaves exactly the 64^3 local positions, each insert taking a new slot.
   */
  method FillChunk(chunk: Chunk, voxel: Voxel)
    requires chunk.Valid() && chunk.voxels == map[]
    modifies chunk
    ensures chunk.Valid()
    ensures forall p :: p in chunk.voxels <==> IsLocal(p)
    ensures |chunk.voxels| == CHUNK_WIDTH * CHUNK_WIDTH * CHUNK_WIDTH
  {
    var x := 0;
    while x < CHUNK_WIDTH
      invariant 0 <= x <= CHUNK_WIDTH && chunk.Valid()
      invariant forall p :: p in chunk.voxels <==> IsLocal(p) && Before(p, x, 0, 0)
      invariant |chunk.voxels| == x * CHUNK_WIDTH * CHUNK_WIDTH
    {
      var y := 0;
      while y < CHUNK_WIDTH
        invariant 0 <= y <= CHUNK_WIDTH && chunk.Valid()
        invariant forall p :: p in chunk.voxels <==> IsLocal(p) && Before(p, x, y, 0)
        invariant |chunk.voxels| == x * CHUNK_WIDTH * CHUNK_WIDTH + y * CHUNK_WIDTH
      {
        FillRow(chunk, x, y, voxel);
        y := y + 1;
      }
      x := x + 1;
    }
  }

  /** The innermost loop: fills the row (x, y, 0 .. 64). */
  method FillRow(chunk: Chunk, x: nat, y: nat, voxel: Voxel)
    requires x < CHUNK_WIDTH && y < CHUNK_WIDTH && chunk.Valid()
    requires forall p :: p in chunk.voxels <==> IsLocal(p) && Before(p, x, y, 0)
    modifies chunk
    ensures chunk.Valid()
    ensures forall p :: p in chunk.voxels <==> IsLocal(p) && Before(p, x, y + 1, 0)
    ensures |chunk.voxels| == old(|chunk.voxels|) + CHUNK_WIDTH
  {
    var z := 0;
    while z < CHUNK_WIDTH
      invariant 0 <= z <= CHUNK_WIDTH && chunk.Valid()
      invariant forall p :: p in chunk.voxels <==> IsLocal(p) && Before(p, x, y, z)
      invariant |chunk.voxels| == old(|chunk.voxels|) + z
    {
      var inserted := chunk.Insert(UVec3(x, y, z), voxel);
      z := z + 1;
    }
  }

  /** Entry `x` names chunk (x / 64, 0, 0). */
  predicate AxisGrids(grids: seq<Option<IVec3>>) {
    forall x :: 0 <= x < |grids| ==> grids[x] == Some(IVec3(x / CHUNK_WIDTH, 0, 0))
  }

  lemma AxisGridsSnoc(grids: seq<Option<IVec3>>, next: Option<IVec3>)
    requires AxisGrids(grids) && next == Some(IVec3(|grids| / CHUNK_WIDTH, 0, 0))
    ensures AxisGrids(grids + [next])
  {
    var longer := grids + [next];
    assert forall x :: 0 <= x < |grids| ==> longer[x] == grids[x];
  }

  /**
   * Inserting x = 0 .. 64*64-1 along the x axis of a freshly created world:
   * every insert succeeds and reports chunk (x / 64, 0, 0), and afterwards
   * exactly those positions hold the voxel.
   */
  method InsertAlongX(chunks: map<IVec3, Chunk>, voxel: Voxel) returns (grids: seq<Option<IVec3>>)
    requires FullGrid(chunks) && Distinct(chunks) && AllValid(chunks)
    requires forall g :: g in chunks ==> chunks[g].voxels == map[]
    modifies chunks.Values
    ensures |grids| == WORLD_WIDTH * CHUNK_WIDTH
    ensures AxisGrids(grids)
    ensures forall q :: Lookup(chunks, q) == if q.y == 0 && q.z == 0 && 0 <= q.x < |grids| then Some(voxel) else None
  {
    grids := [];
    forall q
      ensures Lookup(chunks, q) == None
    {
      if InBounds(q) {
        InBoundsHasGridCell(q);
      }
    }
    var x := 0;
    while x < WORLD_WIDTH * CHUNK_WIDTH
      invariant 0 <= x <= WORLD_WIDTH * CHUNK_WIDTH && |grids| == x
      invariant AllValid(chunks)
      invariant AxisGrids(grids)
      invariant forall q :: Lookup(chunks, q) == if q.y == 0 && q.z == 0 && 0 <= q.x < x then Some(voxel) else None
    {
      var position := IVec3(x, 0, 0);
      InBoundsHasGridCell(position);
      TranslationIsFloorDivision(position);
      assert GridOf(position) == IVec3(x / CHUNK_WIDTH, 0, 0) && GridOf(position) in chunks;
      assert Lookup(chunks, position) == None;
      var r := InsertVoxel(chunks, position, voxel);
      assert r == Done(Some(IVec3(x / CHUNK_WIDTH, 0, 0)));
      AxisGridsSnoc(grids, r.value);
      grids := grids + [r.value];
      x := x + 1;
    }
  }

}

/** The world as a whole: `Chunks` and the instance list it produces for the TLAS. */
module WorldIndex {
  import opened Wrappers
  import opened Vectors
  import opened WorldCoords
  import opened Instances
  import opened World

  /** The chunk grid position an instance's integer translation falls in. */
  function InstanceGrid(instance: Instance): IVec3 {
    GridOf(instance.transform.translation)
  }

  /** The distance, from `origin`, of the chunk an instance belongs to. */
  function InstanceDistance(instance: Instance, origin: IVec3): nat {
    DistanceToChunk(InstanceGrid(instance), origin)
  }

  /** A voxel's world position falls back in the chunk it came from. */
  lemma GridOfWorldPosition(grid: IVec3, local: UVec3)
    requires IsLocal(local)
    ensures GridOf(WorldPosition(grid, local)) == grid
  {
    var p := WorldPosition(grid, local);
    GridAxisIsFloor(p.x);
    FloorUnique(p.x, grid.x);
    GridAxisIsFloor(p.y);
    FloorUnique(p.y, grid.y);
    GridAxisIsFloor(p.z);
    FloorUnique(p.z, grid.z);
  }

  /** The sort key of `Chunks::to_instances`: a chunk's distance from `origin`. */
  function DistanceFrom(origin: IVec3): IVec3 -> nat {
    grid => DistanceToChunk(grid, origin)
  }

  ghost predicate SortedBy(grids: seq<IVec3>, key: IVec3 -> nat) {
    forall i, j :: 0 <= i < j < |grids| ==> key(grids[i]) <= key(grids[j])
  }

  ghost predicate SortedByDistance(grids: seq<IVec3>, origin: IVec3) {
    SortedBy(grids, DistanceFrom(origin))
  }

  /**
   * The in-place `sort_by` on a key (an insertion sort here): the result is
   * ordered by the key and is a permutation of the input. The order among
   * equal keys is left unspecified.
   */
  method SortByKey(a: array<IVec3>, key: IVec3 -> nat)
    modifies a
    ensures SortedBy(a[..], key)
    ensures multiset(a[..]) == multiset(old(a[..]))
  {
    var i := 0;
    while i < a.Length
      invariant 0 <= i <= a.Length
      invariant SortedBy(a[..i], key)
      invariant multiset(a[..]) == multiset(old(a[..]))
    {
      InsertLast(a, i, key);
      i := i + 1;
    }
    assert a[..a.Length] == a[..];
  }

  /** One insertion step: moves `a[i]` down into the sorted prefix `a[..i]`. */
  method InsertLast(a: array<IVec3>, i: nat, key: IVec3 -> nat)
    requires i < a.Length
    requires SortedBy(a[..i], key)
    modifies a
    ensures SortedBy(a[..i + 1], key)
    ensures multiset(a[..]) == multiset(old(a[..]))
  {
    var j := i;
    while j > 0 && key(a[j - 1]) > key(a[j])
      invariant 0 <= j <= i
      invariant multiset(a[..]) == multiset(old(a[..]))
      invariant forall p, q :: 0 <= p < q <= i && p != j && q != j ==> key(a[p]) <= key(a[q])
      invariant forall q :: j < q <= i ==> key(a[j]) < key(a[q])
    {
      ghost var before := a[..];
      Swap(a, j - 1, j);
      assert a[j - 1] == before[j] && a[j] == before[j - 1];
      assert forall k :: 0 <= k < a.Length && k != j - 1 && k != j ==> a[k] == before[k];
      j := j - 1;
    }
  }

  /** Exchanges two elements of an array. */
  method Swap(a: array<IVec3>, i: nat, j: nat)
    requires i < a.Length && j < a.Length
    modifies a
    ensures a[..] == old(a[..])[i := old(a[j])][j := old(a[i])]
    ensures multiset(a[..]) == multiset(old(a[..]))
  {
    a[i], a[j] := a[j], a[i];
  }

  ghost predicate InstancesSorted(r: seq<Instance>, origin: IVec3) {
    forall i, j :: 0 <= i < j < |r| ==> InstanceDistance(r[i], origin) <= InstanceDistance(r[j], origin)
  }

  ghost predicate AllAt(r: seq<Instance>, origin: IVec3, d: nat) {
    forall i :: 0 <= i < |r| ==> InstanceDistance(r[i], origin) == d
  }

  ghost predicate AllAtLeast(r: seq<Instance>, origin: IVec3, d: nat) {
    forall i :: 0 <= i < |r| ==> d <= InstanceDistance(r[i], origin)
  }

  lemma AtLeastWeaken(r: seq<Instance>, origin: IVec3, d: nat, e: nat)
    requires AllAtLeast(r, origin, d) && e <= d
    ensures AllAtLeast(r, origin, e)
  {
  }

  /** A block at distance `d` followed by a sorted run no closer than `d` is sorted. */
  lemma ConcatOrdered(block: seq<Instance>, rest: seq<Instance>, origin: IVec3, d: nat)
    requires AllAt(block, origin, d)
    requires InstancesSorted(rest, origin) && AllAtLeast(rest, origin, d)
    ensures InstancesSorted(block + rest, origin) && AllAtLeast(block + rest, origin, d)
  {
    var r := block + rest;
    forall i, j | 0 <= i < j < |r|
      ensures InstanceDistance(r[i], origin) <= InstanceDistance(r[j], origin)
    {
      if j < |block| {
        assert r[i] == block[i] && r[j] == block[j];
      } else if i < |block| {
        assert r[i] == block[i] && r[j] == rest[j - |block|];
      } else {
        assert r[i] == rest[i - |block|] && r[j] == rest[j - |block|];
      }
    }
    forall i | 0 <= i < |r|
      ensures d <= InstanceDistance(r[i], origin)
    {
      if i < |block| {
        assert r[i] == block[i];
      } else {
        assert r[i] == rest[i - |block|];
      }
    }
  }

  ghost predicate AllVisible(r: seq<Instance>) {
    forall i :: 0 <= i < |r| ==> r[i].mask == VISIBLE_MASK
  }

  lemma ConcatVisible(block: seq<Instance>, rest: seq<Instance>)
    requires AllVisible(block) && AllVisible(rest)
    ensures AllVisible(block + rest)
  {
    var r := block + rest;
    forall i | 0 <= i < |r|
      ensures r[i].mask == VISIBLE_MASK
    {
      if i < |block| {
        assert r[i] == block[i];
      } else {
        assert r[i] == rest[i - |block|];
      }
    }
  }

  /** Truncating the instance list keeps its order and its masks. */
  lemma TakeKeeps(all: seq<Instance>, n: nat, origin: IVec3)
    requires n <= |all|
    requires InstancesSorted(all, origin) && AllVisible(all)
    ensures InstancesSorted(all[..n], origin) && AllVisible(all[..n])
  {
    assert forall i :: 0 <= i < n ==> all[..n][i] == all[i];
  }

  /** Every instance falls in one of the chunks `grids`. */
  ghost predicate InstancesInGrids(r: seq<Instance>, grids: seq<IVec3>) {
    forall i :: 0 <= i < |r| ==> InstanceGrid(r[i]) in grids
  }

  /** Instances in `grids[0]` followed by instances in `grids[1..]` all fall in `grids`. */
  lemma ConcatInGrids(block: seq<Instance>, rest: seq<Instance>, grids: seq<IVec3>)
    requires grids != []
    requires forall k :: 0 <= k < |block| ==> InstanceGrid(block[k]) == grids[0]
    requires InstancesInGrids(rest, grids[1..])
    ensures InstancesInGrids(block + rest, grids)
  {
    var r := block + rest;
    forall i | 0 <= i < |r|
      ensures InstanceGrid(r[i]) in grids
    {
      if i < |block| {
        assert r[i] == block[i];
      } else {
        assert r[i] == rest[i - |block|];
        assert InstanceGrid(r[i]) in grids[1..];
      }
    }
  }

  /** An instance of either part is an instance of the concatenation. */
  lemma ConcatHasInstance(block: seq<Instance>, rest: seq<Instance>, position: IVec3)
    requires HasInstanceAt(block, position) || HasInstanceAt(rest, position)
    ensures HasInstanceAt(block + rest, position)
  {
    var r := block + rest;
    if HasInstanceAt(block, position) {
      var i :| 0 <= i < |block| && block[i].transform.translation == position;
      assert r[i] == block[i];
    } else {
      var j :| 0 <= j < |rest| && rest[j].transform.translation == position;
      assert r[|block| + j] == rest[j];
    }
  }

  /**
   * A block of instances in chunk `g` followed by instances in other chunks,
   * each part free of repeated positions, repeats no position.
   */
  lemma ConcatDistinct(block: seq<Instance>, rest: seq<Instance>, g: IVec3, others: seq<IVec3>)
    requires DistinctPositions(block) && DistinctPositions(rest)
    requires forall k :: 0 <= k < |block| ==> InstanceGrid(block[k]) == g
    requires InstancesInGrids(rest, others) && g !in others
    ensures DistinctPositions(block + rest)
  {
    var r := block + rest;
    forall i, j | 0 <= i < j < |r|
      ensures r[i].transform.translation != r[j].transform.translation
    {
      if j < |block| {
        assert r[i] == block[i] && r[j] == block[j];
      } else if i < |block| {
        assert r[i] == block[i] && r[j] == rest[j - |block|];
        assert InstanceGrid(r[j]) in others;
      } else {
        assert r[i] == rest[i - |block|] && r[j] == rest[j - |block|];
      }
    }
  }

  /** Truncating the instance list keeps its positions distinct. */
  lemma DistinctPrefix(all: seq<Instance>, n: nat)
    requires n <= |all| && DistinctPositions(all)
    ensures DistinctPositions(all[..n])
  {
    assert forall i :: 0 <= i < n ==> all[..n][i] == all[i];
  }

  /** A sequence without duplicates holds each value at most once. */
  lemma {:induction false} NoDuplicatesCount<T>(s: seq<T>, x: T)
    requires NoDuplicates(s)
    ensures multiset(s)[x] <= 1
  {
    if s != [] {
      assert s == [s[0]] + s[1..];
      assert NoDuplicates(s[1..]) by {
        assert forall i :: 0 <= i < |s| - 1 ==> s[1..][i] == s[i + 1];
      }
      NoDuplicatesCount(s[1..], x);
      if s[0] == x {
        assert forall i :: 0 <= i < |s| - 1 ==> s[1..][i] != x by {
          assert forall i :: 0 <= i < |s| - 1 ==> s[1..][i] == s[i + 1];
        }
        assert x !in s[1..];
      }
    }
  }

  /** An element at `i` and an equal one further on count twice. */
  lemma CountTwo<T>(s: seq<T>, i: nat, j: nat)
    requires i < j < |s|
    ensures multiset(s)[s[i]] >= 1 + (if s[j] == s[i] then 1 else 0)
  {
    assert s == s[..j] + s[j..];
    assert s[..j][i] == s[i];
    assert s[j..][0] == s[j];
  }

  /** Duplicate-freedom depends only on the multiset of elements. */
  lemma SameMultisetNoDuplicates<T>(a: seq<T>, b: seq<T>)
    requires multiset(a) == multiset(b) && NoDuplicates(b)
    ensures NoDuplicates(a)
  {
    forall i, j | 0 <= i < j < |a|
      ensures a[i] != a[j]
    {
      CountTwo(a, i, j);
      NoDuplicatesCount(b, a[i]);
    }
  }

  /** `Chunks`: the world, a map from chunk grid positions to the chunks that own them. */
  class Chunks {
    var inner: map<IVec3, Chunk>

    ghost predicate Valid()
      reads this, inner.Values
    {
      Distinct(inner) && AllValid(inner)
    }

    /** The derived `Default`: a world without any chunk. */
    constructor Default()
      ensures Valid() && inner == map[]
    {
      inner := map[];
    }

    /** `Chunks::from`: a world over an existing chunk map. */
    constructor From(inner: map<IVec3, Chunk>)
      requires Distinct(inner) && AllValid(inner)
      ensures Valid() && this.inner == inner
    {
      this.inner := inner;
    }

    /** Whether a world position holds a voxel; out-of-bounds positions and missing chunks panic. */
    function Contains(position: IVec3): (r: Fallible<bool>)
      reads this, inner.Values
      ensures !InBounds(position) ==> r == Panicked(OutOfBounds)
      ensures InBounds(position) && GridOf(position) !in inner ==> r == Panicked(MissingChunk)
      ensures InBounds(position) && GridOf(position) in inner ==> r.Done?
      ensures r.Done? ==> (r.value <==> Lookup(inner, position).Some?)
    {
      match TranslationToPosition(position)
      case Panicked(reason) => Panicked(reason)
      case Done((grid, local)) =>
        if grid !in inner then Panicked(MissingChunk) else Done(inner[grid].Contains(local))
    }

    /** The voxel at a world position; out-of-bounds positions and missing chunks panic. */
    function GetVoxel(position: IVec3): (r: Fallible<Option<Voxel>>)
      reads this, inner.Values
      ensures !InBounds(position) ==> r == Panicked(OutOfBounds)
      ensures InBounds(position) && GridOf(position) !in inner ==> r == Panicked(MissingChunk)
      ensures InBounds(position) && GridOf(position) in inner ==> r == Done(Lookup(inner, position))
    {
      match TranslationToPosition(position)
      case Panicked(reason) => Panicked(reason)
      case Done((grid, local)) =>
        if grid !in inner then Panicked(MissingChunk)
        else if local in inner[grid].voxels then Done(Some(inner[grid].voxels[local]))
        else Done(None)
    }

    /**
     * In a world with every grid cell (as `create_empty_chunks` makes it) the
     * chunk lookups never fail: queries panic exactly on out-of-bounds positions,
     * and `contains` agrees with `get_voxel`.
     */
    lemma FullGridQueries(position: IVec3)
      requires FullGrid(inner)
      ensures Contains(position).Panicked? <==> !InBounds(position)
      ensures GetVoxel(position).Panicked? <==> !InBounds(position)
      ensures Contains(position) == Done(true) <==> GetVoxel(position).Done? && GetVoxel(position).value.Some?
    {
      if InBounds(position) {
        InBoundsHasGridCell(position);
      }
    }

    /** `set_chunk_visibility`: sets the flag of one chunk; a missing chunk panics. */
    method SetChunkVisibility(gridPosition: IVec3, visible: bool) returns (r: Fallible<()>)
      requires Valid()
      modifies if gridPosition in inner then {inner[gridPosition]} else {}
      ensures Valid()
      ensures gridPosition !in inner ==> r == Panicked(MissingChunk)
      ensures gridPosition in inner ==> r == Done(()) && inner[gridPosition].visible == visible
      ensures forall g :: g in inner ==> inner[g].voxels == old(inner[g].voxels)
      ensures forall g :: g in inner && g != gridPosition ==> inner[g].visible == old(inner[g].visible)
    {
      if gridPosition !in inner {
        return Panicked(MissingChunk);
      }
      inner[gridPosition].SetVisible(visible);
      r := Done(());
    }

    /** `active_chunks`: the grid positions of the non-empty visible chunks, in the map's iteration order. */
    function ActiveChunks(order: seq<IVec3>): (active: seq<IVec3>)
      reads this, inner.Values
      ensures forall g :: g in active <==> g in order && g in inner && !inner[g].Empty() && inner[g].visible
    {
      if order == [] then []
      else
        var rest := ActiveChunks(order[1..]);
        var g := order[0];
        if g in inner && !inner[g].Empty() && inner[g].visible then [g] + rest else rest
    }

    /** An order without repeats yields active chunks without repeats. */
    lemma {:induction false} ActiveChunksDistinct(order: seq<IVec3>)
      requires NoDuplicates(order)
      ensures NoDuplicates(ActiveChunks(order))
    {
      if order != [] {
        assert forall i :: 0 <= i < |order| - 1 ==> order[1..][i] == order[i + 1];
        ActiveChunksDistinct(order[1..]);
        var rest, active := ActiveChunks(order[1..]), ActiveChunks(order);
        assert order[0] !in order[1..];
        if active != rest {
          assert active == [order[0]] + rest;
          assert order[0] !in rest;
          forall i, j | 0 <= i < j < |active|
            ensures active[i] != active[j]
          {
            assert active[j] == rest[j - 1] && rest[j - 1] in rest;
            if i > 0 {
              assert active[i] == rest[i - 1];
            }
          }
        }
      }
    }

    /**
     * When `order` enumerates the map's keys, a permutation of the active
     * chunks lists each non-empty visible chunk of the world exactly once.
     */
    lemma ActiveChunksEnumerate(order: seq<IVec3>, sorted: seq<IVec3>)
      requires IsEnumeration(order, inner.Keys)
      requires multiset(sorted) == multiset(ActiveChunks(order))
      ensures NoDuplicates(sorted)
      ensures forall g :: g in sorted <==> g in inner && !inner[g].Empty() && inner[g].visible
    {
      ActiveChunksDistinct(order);
      SameMultisetNoDuplicates(sorted, ActiveChunks(order));
      forall g
        ensures g in sorted <==> g in ActiveChunks(order)
      {
        assert g in sorted <==> g in multiset(sorted);
        assert g in ActiveChunks(order) <==> g in multiset(ActiveChunks(order));
      }
    }

    /** Each chunk's voxel walk lists the keys of its voxel map exactly once. */
    ghost predicate VoxelOrdersEnumerate(voxelOrder: IVec3 -> seq<UVec3>)
      reads this, inner.Values
    {
      forall g :: g in inner ==> IsEnumeration(voxelOrder(g), inner[g].voxels.Keys)
    }

    /** The instance of an aligned voxel of one of the chunks `grids`. */
    ghost predicate FromAlignedVoxel(instance: Instance, grids: seq<IVec3>, lod: nat, blasReference: nat)
      reads this, inner.Values
    {
      exists g, local :: g in grids && g in inner && local in inner[g].voxels && LodAligned(local, lod) &&
        InstanceOfVoxel(instance, local, inner[g].voxels[local], lod, g, blasReference, inner[g].visible)
    }

    /** Every instance is that of an aligned voxel of one of the chunks `grids`. */
    ghost predicate AllFromAlignedVoxels(r: seq<Instance>, grids: seq<IVec3>, lod: nat, blasReference: nat)
      reads this, inner.Values
    {
      forall i :: 0 <= i < |r| ==> FromAlignedVoxel(r[i], grids, lod, blasReference)
    }

    /** Every aligned voxel of the chunks `grids` has an instance at its world position. */
    ghost predicate CoversAlignedVoxels(r: seq<Instance>, grids: seq<IVec3>, lod: nat)
      reads this, inner.Values
    {
      forall g, local :: g in grids && g in inner && local in inner[g].voxels && LodAligned(local, lod) ==>
        HasInstanceAt(r, WorldPosition(g, local))
    }

    /** The chunks' instance lists concatenated in the order of `grids` (the `flat_map`). */
    function FlatInstances(grids: seq<IVec3>, lod: nat, blasReference: nat, voxelOrder: IVec3 -> seq<UVec3>): seq<Instance>
      reads this, inner.Values
      requires forall g :: g in grids ==> g in inner
    {
      if grids == [] then []
      else
        inner[grids[0]].ToInstances(lod, grids[0], blasReference, voxelOrder(grids[0]))
        + FlatInstances(grids[1..], lod, blasReference, voxelOrder)
    }

    /** Every instance of one chunk falls back in that chunk. */
    lemma BlockGrid(grid: IVec3, lod: nat, blasReference: nat, order: seq<UVec3>)
      requires Valid() && grid in inner
      ensures var block := inner[grid].ToInstances(lod, grid, blasReference, order);
        forall k :: 0 <= k < |block| ==> InstanceGrid(block[k]) == grid
    {
      var block := inner[grid].ToInstances(lod, grid, blasReference, order);
      var kept := inner[grid].KeptLocals(lod, order);
      forall k | 0 <= k < |block|
        ensures InstanceGrid(block[k]) == grid
      {
        assert inner[grid] in inner.Values;
        assert kept[k] in inner[grid].voxels;
        GridOfWorldPosition(grid, kept[k]);
      }
    }

    /** Every instance of one chunk shares that chunk's distance. */
    lemma BlockDistance(grid: IVec3, lod: nat, blasReference: nat, order: seq<UVec3>, origin: IVec3)
      requires Valid() && grid in inner
      ensures AllAt(inner[grid].ToInstances(lod, grid, blasReference, order), origin, DistanceToChunk(grid, origin))
    {
      BlockGrid(grid, lod, blasReference, order);
    }

    /**
     * Concatenating chunks sorted by distance yields instances sorted by the
     * distance of the chunk they fall in, none closer than the first chunk.
     */
    lemma {:induction false} FlatInstancesOrdered(
      grids: seq<IVec3>, lod: nat, blasReference: nat, voxelOrder: IVec3 -> seq<UVec3>, origin: IVec3)
      requires Valid()
      requires forall g :: g in grids ==> g in inner
      requires SortedByDistance(grids, origin)
      ensures InstancesSorted(FlatInstances(grids, lod, blasReference, voxelOrder), origin)
      ensures grids != [] ==>
        AllAtLeast(FlatInstances(grids, lod, blasReference, voxelOrder), origin, DistanceToChunk(grids[0], origin))
    {
      if grids != [] {
        var g := grids[0];
        var block := inner[g].ToInstances(lod, g, blasReference, voxelOrder(g));
        var rest := FlatInstances(grids[1..], lod, blasReference, voxelOrder);
        var d := DistanceToChunk(g, origin);
        assert FlatInstances(grids, lod, blasReference, voxelOrder) == block + rest;
        assert SortedByDistance(grids[1..], origin) by {
          assert forall i :: 0 <= i < |grids| - 1 ==> grids[1..][i] == grids[i + 1];
        }
        FlatInstancesOrdered(grids[1..], lod, blasReference, voxelOrder, origin);
        BlockDistance(g, lod, blasReference, voxelOrder(g), origin);
        if |grids| > 1 {
          assert DistanceFrom(origin)(grids[0]) <= DistanceFrom(origin)(grids[1]);
          AtLeastWeaken(rest, origin, DistanceToChunk(grids[1], origin), d);
        }
        ConcatOrdered(block, rest, origin, d);
      }
    }

    /** Only visible chunks contribute: every instance then carries the visible mask 0xFF. */
    lemma {:induction false} FlatInstancesVisible(
      grids: seq<IVec3>, lod: nat, blasReference: nat, voxelOrder: IVec3 -> seq<UVec3>)
      requires forall g :: g in grids ==> g in inner && inner[g].visible
      ensures AllVisible(FlatInstances(grids, lod, blasReference, voxelOrder))
    {
      if grids != [] {
        FlatInstancesVisible(grids[1..], lod, blasReference, voxelOrder);
        var g := grids[0];
        var block := inner[g].ToInstances(lod, g, blasReference, voxelOrder(g));
        var rest := FlatInstances(grids[1..], lod, blasReference, voxelOrder);
        assert FlatInstances(grids, lod, blasReference, voxelOrder) == block + rest;
        assert AllVisible(block) by {
          var kept := inner[g].KeptLocals(lod, voxelOrder(g));
          forall i | 0 <= i < |block|
            ensures block[i].mask == VISIBLE_MASK
          {
            assert kept[i] in inner[g].voxels;
            assert InstanceOfVoxel(block[i], kept[i], inner[g].voxels[kept[i]], lod, g, blasReference, true);
          }
        }
        ConcatVisible(block, rest);
      }
    }

    /** Every instance of the concatenation comes from an aligned voxel of one of the chunks. */
    lemma {:induction false} FlatInstancesFromAligned(
      grids: seq<IVec3>, lod: nat, blasReference: nat, voxelOrder: IVec3 -> seq<UVec3>)
      requires forall g :: g in grids ==> g in inner
      ensures AllFromAlignedVoxels(FlatInstances(grids, lod, blasReference, voxelOrder), grids, lod, blasReference)
    {
      if grids != [] {
        var g := grids[0];
        var block := inner[g].ToInstances(lod, g, blasReference, voxelOrder(g));
        var rest := FlatInstances(grids[1..], lod, blasReference, voxelOrder);
        var all := FlatInstances(grids, lod, blasReference, voxelOrder);
        assert all == block + rest;
        FlatInstancesFromAligned(grids[1..], lod, blasReference, voxelOrder);
        inner[g].ToInstancesComeFromAligned(lod, g, blasReference, voxelOrder(g));
        forall i | 0 <= i < |all|
          ensures FromAlignedVoxel(all[i], grids, lod, blasReference)
        {
          if i < |block| {
            assert all[i] == block[i];
            var local :| local in inner[g].voxels && LodAligned(local, lod) &&
              InstanceOfVoxel(block[i], local, inner[g].voxels[local], lod, g, blasReference, inner[g].visible);
            assert g in grids;
          } else {
            assert all[i] == rest[i - |block|];
            assert FromAlignedVoxel(rest[i - |block|], grids[1..], lod, blasReference);
            var h, local :| h in grids[1..] && h in inner && local in inner[h].voxels && LodAligned(local, lod) &&
              InstanceOfVoxel(all[i], local, inner[h].voxels[local], lod, h, blasReference, inner[h].visible);
            assert h in grids;
          }
        }
      }
    }

    /** When each voxel walk covers its chunk, every aligned voxel of the chunks gets an instance. */
    lemma {:induction false} FlatInstancesCover(
      grids: seq<IVec3>, lod: nat, blasReference: nat, voxelOrder: IVec3 -> seq<UVec3>)
      requires forall g :: g in grids ==> g in inner
      requires VoxelOrdersEnumerate(voxelOrder)
      ensures CoversAlignedVoxels(FlatInstances(grids, lod, blasReference, voxelOrder), grids, lod)
    {
      if grids != [] {
        var g := grids[0];
        var block := inner[g].ToInstances(lod, g, blasReference, voxelOrder(g));
        var rest := FlatInstances(grids[1..], lod, blasReference, voxelOrder);
        var all := FlatInstances(grids, lod, blasReference, voxelOrder);
        assert all == block + rest;
        FlatInstancesCover(grids[1..], lod, blasReference, voxelOrder);
        assert IsEnumeration(voxelOrder(g), inner[g].voxels.Keys);
        inner[g].ToInstancesCoverAligned(lod, g, blasReference, voxelOrder(g));
        forall h, local | h in grids && h in inner && local in inner[h].voxels && LodAligned(local, lod)
          ensures HasInstanceAt(all, WorldPosition(h, local))
        {
          if h != g {
            assert h in grids[1..] by {
              assert grids == [g] + grids[1..];
            }
          }
          ConcatHasInstance(block, rest, WorldPosition(h, local));
        }
      }
    }

    /** Every instance of the concatenation falls in one of the chunks it was drawn from. */
    lemma {:induction false} FlatInstancesInGrids(
      grids: seq<IVec3>, lod: nat, blasReference: nat, voxelOrder: IVec3 -> seq<UVec3>)
      requires Valid()
      requires forall g :: g in grids ==> g in inner
      ensures InstancesInGrids(FlatInstances(grids, lod, blasReference, voxelOrder), grids)
    {
      if grids != [] {
        var g := grids[0];
        var block := inner[g].ToInstances(lod, g, blasReference, voxelOrder(g));
        var rest := FlatInstances(grids[1..], lod, blasReference, voxelOrder);
        var all := FlatInstances(grids, lod, blasReference, voxelOrder);
        assert all == block + rest;
        FlatInstancesInGrids(grids[1..], lod, blasReference, voxelOrder);
        BlockGrid(g, lod, blasReference, voxelOrder(g));
        ConcatInGrids(block, rest, grids);
      }
    }

    /**
     * Distinct chunks, each walking its voxel map once, give instances at
     * pairwise distinct positions.
     */
    lemma {:induction false} FlatInstancesDistinct(
      grids: seq<IVec3>, lod: nat, blasReference: nat, voxelOrder: IVec3 -> seq<UVec3>)
      requires Valid()
      requires forall g :: g in grids ==> g in inner
      requires NoDuplicates(grids)
      requires VoxelOrdersEnumerate(voxelOrder)
      ensures DistinctPositions(FlatInstances(grids, lod, blasReference, voxelOrder))
    {
      if grids != [] {
        var g := grids[0];
        var block := inner[g].ToInstances(lod, g, blasReference, voxelOrder(g));
        var rest := FlatInstances(grids[1..], lod, blasReference, voxelOrder);
        var all := FlatInstances(grids, lod, blasReference, voxelOrder);
        assert all == block + rest;
        assert forall i :: 0 <= i < |grids| - 1 ==> grids[1..][i] == grids[i + 1];
        FlatInstancesDistinct(grids[1..], lod, blasReference, voxelOrder);
        FlatInstancesInGrids(grids[1..], lod, blasReference, voxelOrder);
        BlockGrid(g, lod, blasReference, voxelOrder(g));
        assert IsEnumeration(voxelOrder(g), inner[g].voxels.Keys);
        inner[g].ToInstancesDistinct(lod, g, blasReference, voxelOrder(g));
        assert g !in grids[1..];
        ConcatDistinct(block, rest, g, grids[1..]);
      }
    }

    /**
     * The world-level counterpart of `Chunk::to_instances`' exactness: over
     * distinct chunks whose voxel walks enumerate their voxel maps, the
     * concatenated instances are exactly the aligned voxels of those chunks,
     * each once.
     */
    lemma FlatInstancesExact(grids: seq<IVec3>, lod: nat, blasReference: nat, voxelOrder: IVec3 -> seq<UVec3>)
      requires Valid()
      requires forall g :: g in grids ==> g in inner
      requires NoDuplicates(grids)
      requires VoxelOrdersEnumerate(voxelOrder)
      ensures CoversAlignedVoxels(FlatInstances(grids, lod, blasReference, voxelOrder), grids, lod)
      ensures AllFromAlignedVoxels(FlatInstances(grids, lod, blasReference, voxelOrder), grids, lod, blasReference)
      ensures DistinctPositions(FlatInstances(grids, lod, blasReference, voxelOrder))
    {
      FlatInstancesCover(grids, lod, blasReference, voxelOrder);
      FlatInstancesFromAligned(grids, lod, blasReference, voxelOrder);
      FlatInstancesDistinct(grids, lod, blasReference, voxelOrder);
    }

    /** The active chunks, collected into a vector and sorted by distance from `origin`. */
    method SortedActiveChunks(origin: IVec3, order: seq<IVec3>) returns (sorted: seq<IVec3>)
      ensures multiset(sorted) == multiset(ActiveChunks(order))
      ensures SortedByDistance(sorted, origin)
      ensures forall g :: g in sorted ==> g in inner && inner[g].visible
    {
      var active := ActiveChunks(order);
      var a := new IVec3[|active|](i requires 0 <= i < |active| => active[i]);
      assert a[..] == active;
      SortByKey(a, DistanceFrom(origin));
      sorted := a[..];
      forall g | g in sorted
        ensures g in inner && inner[g].visible
      {
        assert g in multiset(sorted);
        assert g in active;
      }
    }

    /**
     * `Chunks::to_instances`. The active chunks, listed in the map's
     * iteration order `order`, are collected, sorted by distance from
     * `origin`, expanded into their instances (each chunk walking its voxels
     * in the order `voxelOrder` gives) and truncated to `maxInstanceCount`.
     * `sorted` is the sorted chunk list the instances were drawn from.
     */
    method ToInstances(
      lod: nat, origin: IVec3, blasReference: nat, maxInstanceCount: nat,
      order: seq<IVec3>, voxelOrder: IVec3 -> seq<UVec3>)
      returns (sorted: seq<IVec3>, r: seq<Instance>)
      requires Valid()
      ensures multiset(sorted) == multiset(ActiveChunks(order))
      ensures SortedByDistance(sorted, origin)
      ensures forall g :: g in sorted ==> g in inner
      ensures var all := FlatInstances(sorted, lod, blasReference, voxelOrder);
        |r| == (if |all| <= maxInstanceCount then |all| else maxInstanceCount) && r == all[..|r|]
      ensures AllVisible(r)
      ensures InstancesSorted(r, origin)
      ensures AllFromAlignedVoxels(r, sorted, lod, blasReference)
      ensures IsEnumeration(order, inner.Keys) ==>
        NoDuplicates(sorted) && forall g :: g in sorted <==> g in inner && !inner[g].Empty() && inner[g].visible
      ensures IsEnumeration(order, inner.Keys) && VoxelOrdersEnumerate(voxelOrder) ==> DistinctPositions(r)
      ensures VoxelOrdersEnumerate(voxelOrder)
                && |FlatInstances(sorted, lod, blasReference, voxelOrder)| <= maxInstanceCount
              ==> CoversAlignedVoxels(r, sorted, lod)
    {
      sorted := SortedActiveChunks(origin, order);
      var all := FlatInstances(sorted, lod, blasReference, voxelOrder);
      FlatInstancesOrdered(sorted, lod, blasReference, voxelOrder, origin);
      FlatInstancesVisible(sorted, lod, blasReference, voxelOrder);
      r := if |all| <= maxInstanceCount then all else all[..maxInstanceCount];
      TakeKeeps(all, |r|, origin);
      TruncatedExact(order, sorted, lod, blasReference, voxelOrder, |r|);
    }

    /** What truncating the world's instance list to its first `n` entries keeps of exactness. */
    lemma TruncatedExact(
      order: seq<IVec3>, sorted: seq<IVec3>, lod: nat, blasReference: nat,
      voxelOrder: IVec3 -> seq<UVec3>, n: nat)
      requires Valid()
      requires multiset(sorted) == multiset(ActiveChunks(order))
      requires forall g :: g in sorted ==> g in inner
      requires n <= |FlatInstances(sorted, lod, blasReference, voxelOrder)|
      ensures AllFromAlignedVoxels(FlatInstances(sorted, lod, blasReference, voxelOrder)[..n], sorted, lod, blasReference)
      ensures IsEnumeration(order, inner.Keys) ==>
        NoDuplicates(sorted) && forall g :: g in sorted <==> g in inner && !inner[g].Empty() && inner[g].visible
      ensures IsEnumeration(order, inner.Keys) && VoxelOrdersEnumerate(voxelOrder) ==>
        DistinctPositions(FlatInstances(sorted, lod, blasReference, voxelOrder)[..n])
      ensures VoxelOrdersEnumerate(voxelOrder) && n == |FlatInstances(sorted, lod, blasReference, voxelOrder)|
              ==> CoversAlignedVoxels(FlatInstances(sorted, lod, blasReference, voxelOrder)[..n], sorted, lod)
    {
      var all := FlatInstances(sorted, lod, blasReference, voxelOrder);
      FlatInstancesFromAligned(sorted, lod, blasReference, voxelOrder);
      assert forall i :: 0 <= i < n ==> all[..n][i] == all[i];
      if IsEnumeration(order, inner.Keys) {
        ActiveChunksEnumerate(order, sorted);
        if VoxelOrdersEnumerate(voxelOrder) {
          FlatInstancesDistinct(sorted, lod, blasReference, voxelOrder);
          DistinctPrefix(all, n);
        }
      }
      if VoxelOrdersEnumerate(voxelOrder) && n == |all| {
        FlatInstancesCover(sorted, lod, blasReference, voxelOrder);
        assert all[..n] == all;
      }
    }
  }
}
