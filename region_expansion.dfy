/** Region expansion (the background lambda of RequestRegionAsyn, RequestRegionAsynTick and
    RequestRegionAsync): every integer offset of the cube [-R, R]^3 around the centre cell is
    visited in x, y, z order and kept when an inclusion test passes, R being the radius in
    voxels rounded up. */
module RegionExpansion {
  import opened VoxelTypes
  import opened CoordinateMapping

  /** The two inclusion tests of the sources. CrossTerm is the plugin subsystems' test
      x*x + y*y * +z*z <= R*R, whose unary plus makes y*y*z*z a product; Sphere is the test
      actor's x*x + y*y + z*z <= R*R. */
  datatype InclusionTest = CrossTerm | Sphere

  predicate Includes(t: InclusionTest, x: int, y: int, z: int, r: int) {
    match t
    case CrossTerm => x * x + y * y * z * z <= r * r
    case Sphere => x * x + y * y + z * z <= r * r
  }

  /** The radius in voxels: ceil(Radius / VoxelSize). */
  function GridRadius(radius: real, s: real): (r: int)
    requires s > 0.0
    ensures (r - 1) as real * s < radius <= r as real * s
  {
    var q := radius / s;
    var n := CeilToInt(q);
    assert radius == q * s;
    assert (n - 1) as real < q <= n as real;
    n
  }

  /** cand lies in the cube [-r, r]^3 around c and passes the inclusion test. */
  predicate Selected(c: Coord, r: int, t: InclusionTest, cand: Coord) {
    var dx, dy, dz := cand.x - c.x, cand.y - c.y, cand.z - c.z;
    -r <= dx <= r && -r <= dy <= r && -r <= dz <= r && Includes(t, dx, dy, dz, r)
  }

  /** The candidates of the innermost loop with z in [-r, k), in visiting order. */
  function ZRow(c: Coord, r: int, t: InclusionTest, x: int, y: int, k: int): seq<Coord>
    decreases k + r
  {
    if k <= -r then []
    else ZRow(c, r, t, x, y, k - 1)
         + (if Includes(t, x, y, k - 1, r) then [Add(c, Coord(x, y, k - 1))] else [])
  }

  /** The candidates of the middle loop with y in [-r, k), every z row complete. */
  function YPlane(c: Coord, r: int, t: InclusionTest, x: int, k: int): seq<Coord>
    decreases k + r
  {
    if k <= -r then [] else YPlane(c, r, t, x, k - 1) + ZRow(c, r, t, x, k - 1, r + 1)
  }

  /** The candidates of the outer loop with x in [-r, k), every y plane complete. */
  function Cube(c: Coord, r: int, t: InclusionTest, k: int): seq<Coord>
    decreases k + r
  {
    if k <= -r then [] else Cube(c, r, t, k - 1) + YPlane(c, r, t, k - 1, r + 1)
  }

  /** The whole candidate list of a region around grid coordinate c. */
  function Region(c: Coord, r: int, t: InclusionTest): seq<Coord> {
    Cube(c, r, t, r + 1)
  }

  lemma {:induction false} ZRowMembers(c: Coord, r: int, t: InclusionTest, x: int, y: int, k: int, cand: Coord)
    ensures cand in ZRow(c, r, t, x, y, k) <==>
      cand.x - c.x == x && cand.y - c.y == y && -r <= cand.z - c.z < k
      && Includes(t, x, y, cand.z - c.z, r)
    decreases k + r
  {
    if k > -r {
      ZRowMembers(c, r, t, x, y, k - 1, cand);
    }
  }

  lemma {:induction false} YPlaneMembers(c: Coord, r: int, t: InclusionTest, x: int, k: int, cand: Coord)
    ensures cand in YPlane(c, r, t, x, k) <==>
      cand.x - c.x == x && -r <= cand.y - c.y < k && -r <= cand.z - c.z <= r
      && Includes(t, x, cand.y - c.y, cand.z - c.z, r)
    decreases k + r
  {
    if k > -r {
      YPlaneMembers(c, r, t, x, k - 1, cand);
      ZRowMembers(c, r, t, x, k - 1, r + 1, cand);
    }
  }

  lemma {:induction false} CubeMembers(c: Coord, r: int, t: InclusionTest, k: int, cand: Coord)
    ensures cand in Cube(c, r, t, k) <==>
      -r <= cand.x - c.x < k && -r <= cand.y - c.y <= r && -r <= cand.z - c.z <= r
      && Includes(t, cand.x - c.x, cand.y - c.y, cand.z - c.z, r)
    decreases k + r
  {
    if k > -r {
      CubeMembers(c, r, t, k - 1, cand);
      YPlaneMembers(c, r, t, k - 1, r + 1, cand);
    }
  }

  /** The region holds exactly the coordinates of the cube [-r, r]^3 around c that pass the test. */
  lemma RegionMembers(c: Coord, r: int, t: InclusionTest, cand: Coord)
    ensures cand in Region(c, r, t) <==> Selected(c, r, t, cand)
  {
    CubeMembers(c, r, t, r + 1, cand);
  }

  /** The radius 0 region is the centre cell alone, under either test. */
  lemma {:induction false} RegionOfRadiusZero(c: Coord, t: InclusionTest)
    ensures Region(c, 0, t) == [c]
  {
    assert ZRow(c, 0, t, 0, 0, 0) == [];
    assert ZRow(c, 0, t, 0, 0, 1) == [Add(c, Coord(0, 0, 0))];
    assert YPlane(c, 0, t, 0, 0) == [];
    assert YPlane(c, 0, t, 0, 1) == [c];
    assert Cube(c, 0, t, 0) == [];
  }

  /** The cross-term test is not isotropic: at radius 2 it keeps the offset (2, 0, 2) but drops
      its axis permutation (0, 2, 2), and it keeps (2, 2, 0), which lies outside the sphere. */
  lemma CrossTermIsAnisotropic()
    ensures Includes(CrossTerm, 2, 0, 2, 2) && !Includes(CrossTerm, 0, 2, 2, 2)
    ensures Includes(CrossTerm, 2, 2, 0, 2) && !Includes(Sphere, 2, 2, 0, 2)
  {
  }

  /** The sphere test is invariant under permuting and negating the axes. */
  lemma SphereIsIsotropic(x: int, y: int, z: int, r: int)
    ensures Includes(Sphere, x, y, z, r) == Includes(Sphere, y, z, x, r)
    ensures Includes(Sphere, x, y, z, r) == Includes(Sphere, y, x, z, r)
    ensures Includes(Sphere, x, y, z, r) == Includes(Sphere, -x, y, z, r)
  {
  }

  /** The triple loop of the region lambda, appending every selected coordinate. */
  method ExpandRegion(center: Vec3, radius: real, s: real, t: InclusionTest) returns (positions: seq<Coord>)
    requires s > 0.0
    ensures positions == Region(WorldToGrid(center, s), GridRadius(radius, s), t)
    ensures forall cand :: cand in positions <==>
      Selected(WorldToGrid(center, s), GridRadius(radius, s), t, cand)
  {
    var r := GridRadius(radius, s);
    var centerGrid := WorldToGrid(center, s);
    positions := [];
    var x := -r;
    while x <= r
      invariant r >= 0 ==> -r <= x <= r + 1
      invariant r < 0 ==> x == -r
      invariant positions == Cube(centerGrid, r, t, x)
    {
      positions := AppendPlane(positions, centerGrid, r, t, x);
      x := x + 1;
    }
    forall cand | true
      ensures cand in positions <==> Selected(centerGrid, r, t, cand)
    {
      RegionMembers(centerGrid, r, t, cand);
    }
  }

  /** The middle loop for one x: every y of [-r, r] in order. */
  method AppendPlane(positions: seq<Coord>, c: Coord, r: int, t: InclusionTest, x: int)
    returns (positions': seq<Coord>)
    ensures positions' == positions + YPlane(c, r, t, x, r + 1)
  {
    positions' := positions;
    var y := -r;
    while y <= r
      invariant r >= 0 ==> -r <= y <= r + 1
      invariant r < 0 ==> y == -r
      invariant positions' == positions + YPlane(c, r, t, x, y)
    {
      positions' := AppendRow(positions', c, r, t, x, y);
      assert positions' == positions + (YPlane(c, r, t, x, y) + ZRow(c, r, t, x, y, r + 1));
      y := y + 1;
    }
  }

  /** The inner loop for one x and y: every z of [-r, r] in order, kept when the test passes. */
  method AppendRow(positions: seq<Coord>, c: Coord, r: int, t: InclusionTest, x: int, y: int)
    returns (positions': seq<Coord>)
    ensures positions' == positions + ZRow(c, r, t, x, y, r + 1)
  {
    positions' := positions;
    var z := -r;
    while z <= r
      invariant r >= 0 ==> -r <= z <= r + 1
      invariant r < 0 ==> z == -r
      invariant positions' == positions + ZRow(c, r, t, x, y, z)
    {
      if Includes(t, x, y, z, r) {
        positions' := positions' + [Add(c, Coord(x, y, z))];
      }
      z := z + 1;
    }
  }
}
