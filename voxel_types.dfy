/** The value types shared by every part of the voxel grid: grid and world coordinates,
    the classification state of a voxel, and the six-connected neighbourhood. */
module VoxelTypes {

  /** An integer grid coordinate (FIntVector). */
  datatype Coord = Coord(x: int, y: int, z: int)

  /** A world-space position (FVector), over the reals. */
  datatype Vec3 = Vec3(x: real, y: real, z: real)

  /** The classification of a voxel (EVoxelState / EVoxelStateTickable). */
  datatype VoxelState = Unknown | Free | Blocked

  /** The per-voxel record stored in the grid (FVoxelData / FVoxelDataTickable). */
  datatype VoxelData = VoxelData(state: VoxelState)

  datatype Option<T> = None | Some(value: T)

  /** The sparse occupancy grid: a coordinate absent from the map is Unknown. */
  type Grid = map<Coord, VoxelData>

  /** FIntVector::ZeroValue. */
  const ZeroCoord: Coord := Coord(0, 0, 0)

  /** A freshly declared voxel record, before the classifier sets its state. */
  const DefaultVoxelData: VoxelData := VoxelData(Unknown)

  function Add(a: Coord, b: Coord): Coord {
    Coord(a.x + b.x, a.y + b.y, a.z + b.z)
  }

  /** The six axis directions the search explores, in the order the source lists them. */
  const Directions: seq<Coord> := [
    Coord(1, 0, 0), Coord(-1, 0, 0),
    Coord(0, 1, 0), Coord(0, -1, 0),
    Coord(0, 0, 1), Coord(0, 0, -1)
  ]

  function Abs(n: int): nat {
    if n < 0 then -n else n
  }

  /** b is one unit axis step away from a. */
  predicate IsStep(a: Coord, b: Coord) {
    Abs(b.x - a.x) + Abs(b.y - a.y) + Abs(b.z - a.z) == 1
  }

  /** Every unit axis step is one of the six directions, and every direction is a unit step. */
  function StepDirection(a: Coord, b: Coord): (i: nat)
    requires IsStep(a, b)
    ensures i < |Directions| && b == Add(a, Directions[i])
  {
    if b.x == a.x + 1 then 0
    else if b.x == a.x - 1 then 1
    else if b.y == a.y + 1 then 2
    else if b.y == a.y - 1 then 3
    else if b.z == a.z + 1 then 4
    else 5
  }

  lemma DirectionIsStep(c: Coord, i: nat)
    requires i < |Directions|
    ensures IsStep(c, Add(c, Directions[i])) && Add(c, Directions[i]) != c
  {
  }

  /** A coordinate the search may walk through: classified and Free. */
  predicate IsFree(grid: Grid, c: Coord) {
    c in grid && grid[c].state == Free
  }

  /** The grid invariant: Unknown is never stored. */
  predicate Classified(grid: Grid) {
    forall c :: c in grid ==> grid[c].state != Unknown
  }

  /** The state a completed probe commits: Blocked exactly when it reported an overlap. */
  function Classify(overlaps: nat): (s: VoxelState)
    ensures s != Unknown
    ensures s == Blocked <==> overlaps > 0
    ensures s == Free <==> overlaps == 0
  {
    if overlaps > 0 then Blocked else Free
  }
}
