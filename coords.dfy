/**
 * The coordinate arithmetic of the chunked voxel world: the world's open bound,
 * the split of a world position into a chunk grid position and a local offset,
 * and the integer distance used to order chunks.
 */
module WorldCoords {
  import opened Wrappers
  import opened Vectors

  /** Voxels per chunk along each axis. */
  const CHUNK_WIDTH: int := 64
  /** Chunks on each side of the origin along x, y and z. */
  const WORLD_WIDTH: int := 64
  const WORLD_HEIGHT: int := 64
  const WORLD_DEPTH: int := 64

  /** An open interval `(lo, hi)` of coordinate values. */
  datatype Bounds = Bounds(lo: int, hi: int) {
    predicate Inside(value: int) {
      value > lo && value < hi
    }
  }

  const X_BOUNDS: Bounds := Bounds(-WORLD_WIDTH * CHUNK_WIDTH, WORLD_WIDTH * CHUNK_WIDTH)
  const Y_BOUNDS: Bounds := Bounds(-WORLD_HEIGHT * CHUNK_WIDTH, WORLD_HEIGHT * CHUNK_WIDTH)
  const Z_BOUNDS: Bounds := Bounds(-WORLD_DEPTH * CHUNK_WIDTH, WORLD_DEPTH * CHUNK_WIDTH)

  predicate InBounds(position: IVec3) {
    X_BOUNDS.Inside(position.x) && Y_BOUNDS.Inside(position.y) && Z_BOUNDS.Inside(position.z)
  }

  /** Both ends of every axis are excluded: -4096 and 4096 are out of bounds, -4095 and 4095 are in. */
  lemma InBoundsIsOpenCube(position: IVec3)
    ensures InBounds(position) <==>
      -4096 < position.x < 4096 && -4096 < position.y < 4096 && -4096 < position.z < 4096
  {
  }

  /** Integer division truncating toward zero, as `/` on i32. */
  function TruncDiv(a: int, b: int): (q: int)
    requires b > 0
    ensures a >= 0 ==> q * b <= a < q * b + b
    ensures a < 0 ==> q * b - b < a <= q * b
  {
    if a >= 0 then a / b else -((-a) / b)
  }

  /** Component-wise truncating division of a vector by a scalar. */
  function TruncDiv3(v: IVec3, b: int): IVec3
    requires b > 0
  {
    IVec3(TruncDiv(v.x, b), TruncDiv(v.y, b), TruncDiv(v.z, b))
  }

  /** The grid coordinate of one axis: negative values are shifted before the truncating division. */
  function GridAxis(v: int): int {
    TruncDiv(if v < 0 then -CHUNK_WIDTH + v + 1 else v, CHUNK_WIDTH)
  }

  /** The grid coordinate of an axis is floor division by the chunk width. */
  lemma GridAxisIsFloor(v: int)
    ensures 0 <= v - CHUNK_WIDTH * GridAxis(v) < CHUNK_WIDTH
    ensures GridAxis(v) == v / CHUNK_WIDTH && v - CHUNK_WIDTH * GridAxis(v) == v % CHUNK_WIDTH
  {
    var g := GridAxis(v);
    assert 0 <= v - CHUNK_WIDTH * g < CHUNK_WIDTH;
    FloorUnique(v, g);
  }

  /** Floor division by the chunk width is the only quotient that leaves a remainder in [0, 64). */
  lemma FloorUnique(v: int, g: int)
    requires 0 <= v - CHUNK_WIDTH * g < CHUNK_WIDTH
    ensures g == v / CHUNK_WIDTH && v - CHUNK_WIDTH * g == v % CHUNK_WIDTH
  {
    var q, m := v / CHUNK_WIDTH, v % CHUNK_WIDTH;
    assert v == CHUNK_WIDTH * q + m && 0 <= m < CHUNK_WIDTH;
  }

  /** The grid position of a world position, before the bound check. */
  function GridOf(position: IVec3): IVec3 {
    IVec3(GridAxis(position.x), GridAxis(position.y), GridAxis(position.z))
  }

  /**
   * `translation_to_position`: the chunk grid position and the position local to
   * that chunk. A position outside the world's bound panics; so would a local
   * offset outside [0, 64], which the arithmetic rules out.
   */
  function TranslationToPosition(position: IVec3): (r: Fallible<(IVec3, UVec3)>)
    ensures r.Panicked? <==> !InBounds(position)
    ensures r.Panicked? ==> r.reason == OutOfBounds
    ensures r.Done? ==>
      var (grid, local) := r.value;
      && Add(Scale(grid, CHUNK_WIDTH), Signed(local)) == position
      && local.x < CHUNK_WIDTH && local.y < CHUNK_WIDTH && local.z < CHUNK_WIDTH
  {
    if !InBounds(position) then Panicked(OutOfBounds)
    else
      var grid := GridOf(position);
      var offset := Sub(position, Scale(grid, CHUNK_WIDTH));
      GridAxisIsFloor(position.x);
      GridAxisIsFloor(position.y);
      GridAxisIsFloor(position.z);
      if offset.x < 0 || offset.x > CHUNK_WIDTH
        || offset.y < 0 || offset.y > CHUNK_WIDTH
        || offset.z < 0 || offset.z > CHUNK_WIDTH
      then
        Panicked(OutsideChunk)
      else
        Done((grid, UVec3(offset.x, offset.y, offset.z)))
  }

  /** The in-bounds split is floor division and Euclidean remainder on every axis. */
  lemma TranslationIsFloorDivision(position: IVec3)
    requires InBounds(position)
    ensures TranslationToPosition(position) == Done((
      IVec3(position.x / CHUNK_WIDTH, position.y / CHUNK_WIDTH, position.z / CHUNK_WIDTH),
      UVec3(position.x % CHUNK_WIDTH, position.y % CHUNK_WIDTH, position.z % CHUNK_WIDTH)))
  {
    GridAxisIsFloor(position.x);
    GridAxisIsFloor(position.y);
    GridAxisIsFloor(position.z);
  }

  /** A grid cell of the world: every axis in [-64, 64). */
  predicate IsGridCell(grid: IVec3) {
    && -WORLD_WIDTH <= grid.x < WORLD_WIDTH
    && -WORLD_HEIGHT <= grid.y < WORLD_HEIGHT
    && -WORLD_DEPTH <= grid.z < WORLD_DEPTH
  }

  /** Every in-bounds position falls in one of the grid cells that the world creates. */
  lemma InBoundsHasGridCell(position: IVec3)
    requires InBounds(position)
    ensures TranslationToPosition(position).Done?
    ensures IsGridCell(TranslationToPosition(position).value.0)
  {
    TranslationIsFloorDivision(position);
    FloorBounds(position.x);
    FloorBounds(position.y);
    FloorBounds(position.z);
  }

  lemma FloorBounds(v: int)
    requires -WORLD_WIDTH * CHUNK_WIDTH < v < WORLD_WIDTH * CHUNK_WIDTH
    ensures -WORLD_WIDTH <= v / CHUNK_WIDTH < WORLD_WIDTH
  {
  }

  /** Two different in-bounds positions never share both grid cell and local offset. */
  lemma TranslationInjective(p: IVec3, q: IVec3)
    requires InBounds(p) && InBounds(q)
    requires TranslationToPosition(p) == TranslationToPosition(q)
    ensures p == q
  {
  }

  /**
   * The lowest coordinate of the lowest grid cell is outside the bound: the cell
   * at grid -64 exists, yet a voxel at -4096 can never be addressed.
   */
  lemma LowestCellCornerExcluded()
    ensures IsGridCell(IVec3(-WORLD_WIDTH, 0, 0))
    ensures !InBounds(IVec3(-WORLD_WIDTH * CHUNK_WIDTH, 0, 0))
    ensures TranslationToPosition(IVec3(-WORLD_WIDTH * CHUNK_WIDTH + 1, 0, 0))
      == Done((IVec3(-WORLD_WIDTH, 0, 0), UVec3(1, 0, 0)))
  {
    TranslationIsFloorDivision(IVec3(-WORLD_WIDTH * CHUNK_WIDTH + 1, 0, 0));
  }

  /** The worked examples: (70, 5, 5) lies in chunk (1, 0, 0) at (6, 5, 5); -1 lies in chunk -1 at 63. */
  lemma TranslationExamples()
    ensures TranslationToPosition(IVec3(70, 5, 5)) == Done((IVec3(1, 0, 0), UVec3(6, 5, 5)))
    ensures TranslationToPosition(IVec3(-1, 0, 0)) == Done((IVec3(-1, 0, 0), UVec3(63, 0, 0)))
  {
    TranslationIsFloorDivision(IVec3(70, 5, 5));
    TranslationIsFloorDivision(IVec3(-1, 0, 0));
  }

  /** Integer square root, rounding down (`isqrt`). */
  function Isqrt(n: nat): (r: nat)
    ensures r * r <= n < (r + 1) * (r + 1)
  {
    if n < 4 then (if n == 0 then 0 else 1)
    else
      var s := 2 * Isqrt(n / 4);
      IsqrtStep(n, Isqrt(n / 4));
      if (s + 1) * (s + 1) <= n then s + 1 else s
  }

  /** Doubling the root of n / 4 gives a lower bound whose successor's successor is above the root of n. */
  lemma IsqrtStep(n: nat, t: nat)
    requires n >= 4 && t * t <= n / 4 < (t + 1) * (t + 1)
    ensures (2 * t) * (2 * t) <= n < (2 * t + 2) * (2 * t + 2)
  {
    var q := n / 4;
    assert 4 * q <= n < 4 * q + 4;
    assert (2 * t) * (2 * t) == 4 * (t * t);
    assert (2 * t + 2) * (2 * t + 2) == 4 * ((t + 1) * (t + 1));
  }

  /**
   * `distance_to_chunk`: the integer-truncated Euclidean distance, in grid units,
   * between a grid position and the truncated grid position of `position`.
   */
  function DistanceToChunk(gridPosition: IVec3, position: IVec3): nat {
    Isqrt(LengthSquared(Sub(TruncDiv3(position, CHUNK_WIDTH), gridPosition)))
  }

  /** The distance is the floor of the true distance, and it is zero exactly for the reference cell itself. */
  lemma DistanceToChunkMeaning(gridPosition: IVec3, position: IVec3)
    ensures var d := DistanceToChunk(gridPosition, position);
      var delta := Sub(TruncDiv3(position, CHUNK_WIDTH), gridPosition);
      d * d <= LengthSquared(delta) < (d + 1) * (d + 1)
    ensures DistanceToChunk(gridPosition, position) == 0 <==> gridPosition == TruncDiv3(position, CHUNK_WIDTH)
  {
    var delta := Sub(TruncDiv3(position, CHUNK_WIDTH), gridPosition);
    if delta != ZERO {
      assert LengthSquared(delta) >= 1 by {
        if delta.x != 0 { assert delta.x * delta.x >= 1; }
        else if delta.y != 0 { assert delta.y * delta.y >= 1; }
        else { assert delta.z * delta.z >= 1; }
      }
    }
  }
}
