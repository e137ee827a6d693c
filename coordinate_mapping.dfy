/** Conversion between world positions and grid coordinates (WorldToGrid, GridToWorld and
    their Tick twins): a grid coordinate names the cube [c*s, (c+1)*s) on every axis, and
    its world position is that cube's centre. */
module CoordinateMapping {
  import opened VoxelTypes

  /** FMath::FloorToInt of a component divided by the voxel size. */
  function WorldToGrid(p: Vec3, s: real): Coord
    requires s > 0.0
  {
    Coord((p.x / s).Floor, (p.y / s).Floor, (p.z / s).Floor)
  }

  /** The centre of a cell: c*s + s/2 on every axis. */
  function GridToWorld(c: Coord, s: real): Vec3 {
    Vec3(c.x as real * s + s / 2.0, c.y as real * s + s / 2.0, c.z as real * s + s / 2.0)
  }

  /** FMath::CeilToInt: the least integer not below r. */
  function CeilToInt(r: real): (n: int)
    ensures n as real - 1.0 < r <= n as real
  {
    -((-r).Floor)
  }

  /** One axis of a cell: the half-open interval [n*s, (n+1)*s). */
  predicate InSlab(v: real, n: int, s: real) {
    n as real * s <= v < (n + 1) as real * s
  }

  /** p lies in the cube that grid coordinate c names. */
  predicate InCell(p: Vec3, c: Coord, s: real) {
    InSlab(p.x, c.x, s) && InSlab(p.y, c.y, s) && InSlab(p.z, c.z, s)
  }

  /** On one axis, flooring v/s gives n exactly when v lies in the n-th slab. */
  lemma FloorDivIsSlab(v: real, n: int, s: real)
    requires s > 0.0
    ensures (v / s).Floor == n <==> InSlab(v, n, s)
  {
    var q := v / s;
    assert v == q * s;
    assert InSlab(v, n, s) <==> n as real <= q < (n + 1) as real by {
      assert n as real * s <= q * s <==> n as real <= q;
      assert q * s < (n + 1) as real * s <==> q < (n + 1) as real;
    }
  }

  /** WorldToGrid finds the one cell that contains the position (both directions). */
  lemma WorldToGridIsCell(p: Vec3, c: Coord, s: real)
    requires s > 0.0
    ensures WorldToGrid(p, s) == c <==> InCell(p, c, s)
  {
    FloorDivIsSlab(p.x, c.x, s);
    FloorDivIsSlab(p.y, c.y, s);
    FloorDivIsSlab(p.z, c.z, s);
  }

  /** The centre of a cell lies inside that cell. */
  lemma GridToWorldInCell(c: Coord, s: real)
    requires s > 0.0
    ensures InCell(GridToWorld(c, s), c, s)
  {
  }

  /** The round trip: the cell of a cell's centre is that cell. */
  lemma GridToWorldRoundTrip(c: Coord, s: real)
    requires s > 0.0
    ensures WorldToGrid(GridToWorld(c, s), s) == c
  {
    GridToWorldInCell(c, s);
    WorldToGridIsCell(GridToWorld(c, s), c, s);
  }

  /** Quantizing a position never moves it by more than half a voxel per axis. */
  lemma QuantizationError(p: Vec3, s: real)
    requires s > 0.0
    ensures var w := GridToWorld(WorldToGrid(p, s), s);
      -s / 2.0 <= p.x - w.x < s / 2.0 &&
      -s / 2.0 <= p.y - w.y < s / 2.0 &&
      -s / 2.0 <= p.z - w.z < s / 2.0
  {
    WorldToGridIsCell(p, WorldToGrid(p, s), s);
  }
}
