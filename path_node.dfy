/** The A* node (FPathNode in VoxelGridSubsystem.cpp, FPathNodeTick in VoxelTickableSubsystem.h):
    a coordinate, the coordinate it was reached from, the cost so far and the heuristic part. */
module PathNodes {
  import opened VoxelTypes

  datatype PathNode = PathNode(coord: Coord, parent: Coord, g: real, h: real) {

    /** F() / FCost(): the total cost the open-set scan compares. */
    function F(): real {
      g + h
    }

    /** operator<: ordered by total cost alone. */
    predicate Precedes(other: PathNode) {
      F() < other.F()
    }
  }

  /** The default constructor: both costs zero. The source leaves the two coordinates
      uninitialised, so here they are whatever the caller supplies. */
  function DefaultNode(coord: Coord, parent: Coord): (n: PathNode)
    ensures n.g == 0.0 && n.h == 0.0 && n.F() == 0.0
    ensures n.coord == coord && n.parent == parent
  {
    PathNode(coord, parent, 0.0, 0.0)
  }

  /** The start node: parent ZeroValue, cost 0 and the start's heuristic as H, so its total
      is the heuristic alone. */
  function StartNode(start: Coord, hStart: real): (n: PathNode)
    ensures n.coord == start && n.parent == ZeroCoord && n.g == 0.0 && n.h == hStart && n.F() == hStart
  {
    PathNode(start, ZeroCoord, 0.0, hStart)
  }

  /** The node a relaxation stores: the source passes Priority = NewCost + dist as the H
      argument, so the total it is ranked by counts the cost twice. */
  function NeighbourNode(next: Coord, current: Coord, cost: nat, hNext: real): (n: PathNode)
    ensures n.coord == next && n.parent == current && n.g == cost as real
    ensures n.F() == 2.0 * (cost as real) + hNext
  {
    PathNode(next, current, cost as real, cost as real + hNext)
  }

  /** operator< is a strict order on total cost: irreflexive, asymmetric, transitive, and two
      nodes neither of which precedes the other have equal totals. */
  lemma PrecedesIsStrictOrder(a: PathNode, b: PathNode, c: PathNode)
    ensures !a.Precedes(a)
    ensures a.Precedes(b) ==> !b.Precedes(a)
    ensures a.Precedes(b) && b.Precedes(c) ==> a.Precedes(c)
    ensures !a.Precedes(b) && !b.Precedes(a) ==> a.F() == b.F()
  {
  }
}
