/** The A* search of PerformAStarSearch and PerformAStarSearchTick over a snapshot of the
    grid: six-connected, every step costs 1, nodes are ranked by the F their constructor
    gives them, a node is re-opened whenever its cost improves, and a found path is read
    back along the CameFrom links and reversed. */
module AStar {
  import opened VoxelTypes
  import opened Sequences
  import opened CoordinateMapping
  import opened PathNodes

  /** CostSoFar / GScore. Costs are whole step counts. */
  type CostMap = map<Coord, nat>
  /** CameFrom. */
  type LinkMap = map<Coord, Coord>
  /** OpenSet. */
  type OpenSet = map<Coord, PathNode>

  // ---------------------------------------------------------------------------------------
  // What a path is

  /** cells walks from start to goal through Free cells, one unit axis step at a time. */
  predicate IsCellPath(grid: Grid, start: Coord, goal: Coord, cells: seq<Coord>) {
    |cells| > 0 && cells[0] == start && cells[|cells| - 1] == goal
    && (forall i :: 0 <= i < |cells| ==> IsFree(grid, cells[i]))
    && (forall i :: 0 <= i < |cells| - 1 ==> IsStep(cells[i], cells[i + 1]))
  }

  /** The world centres of a list of cells. */
  function Centres(cells: seq<Coord>, s: real): (r: seq<Vec3>)
    ensures |r| == |cells|
    ensures forall i :: 0 <= i < |cells| ==> r[i] == GridToWorld(cells[i], s)
  {
    seq(|cells|, i requires 0 <= i < |cells| => GridToWorld(cells[i], s))
  }

  /** The waypoints broadcast for a cell path: a first point standing for the start cell,
      then the centre of every later cell. */
  function Waypoints(cells: seq<Coord>, first: Vec3, s: real): seq<Vec3>
    requires |cells| > 0
  {
    [first] + Centres(cells[1..], s)
  }

  lemma CentresCons(c: Coord, cells: seq<Coord>, s: real)
    ensures Centres([c] + cells, s) == [GridToWorld(c, s)] + Centres(cells, s)
  {
    assert forall i :: 0 <= i < |cells| + 1 ==>
      Centres([c] + cells, s)[i] == ([GridToWorld(c, s)] + Centres(cells, s))[i];
  }

  /** One waypoint per cell: the first point first, and after it the centre of each cell,
      which the grid maps back to that very cell; so a path of two or more cells ends at the
      goal's centre. */
  lemma WaypointsShape(cells: seq<Coord>, first: Vec3, s: real)
    requires |cells| > 0 && s > 0.0
    ensures var w := Waypoints(cells, first, s);
      |w| == |cells| && w[0] == first
      && (forall i :: 1 <= i < |cells| ==> w[i] == GridToWorld(cells[i], s) && WorldToGrid(w[i], s) == cells[i])
      && (|cells| > 1 ==> w[|w| - 1] == GridToWorld(cells[|cells| - 1], s))
  {
    var w := Waypoints(cells, first, s);
    forall i | 1 <= i < |cells|
      ensures w[i] == GridToWorld(cells[i], s) && WorldToGrid(w[i], s) == cells[i]
    {
      assert w[i] == Centres(cells[1..], s)[i - 1];
      GridToWorldRoundTrip(cells[i], s);
    }
  }

  /** When the first point is the start cell's own centre, the waypoints are the centres of
      all the cells. */
  lemma WaypointsFromCentre(cells: seq<Coord>, s: real)
    requires |cells| > 0
    ensures Waypoints(cells, GridToWorld(cells[0], s), s) == Centres(cells, s)
  {
    assert cells == [cells[0]] + cells[1..];
    CentresCons(cells[0], cells[1..], s);
  }

  lemma CellPathCons(grid: Grid, p: Coord, goal: Coord, cells: seq<Coord>)
    requires |cells| > 0 && IsCellPath(grid, cells[0], goal, cells)
    requires IsFree(grid, p) && IsStep(p, cells[0])
    ensures IsCellPath(grid, p, goal, [p] + cells)
  {
    var cells' := [p] + cells;
    assert forall i :: 1 <= i < |cells'| ==> cells'[i] == cells[i - 1];
  }

  /** Every cell of cells is costed, and costs strictly increase along the list. */
  predicate CostsIncrease(cost: CostMap, cells: seq<Coord>) {
    (forall i :: 0 <= i < |cells| ==> cells[i] in cost)
    && (forall i, j :: 0 <= i < j < |cells| ==> cost[cells[i]] < cost[cells[j]])
  }

  lemma CostsIncreaseCons(cost: CostMap, p: Coord, cells: seq<Coord>)
    requires |cells| > 0 && CostsIncrease(cost, cells)
    requires p in cost && cost[p] < cost[cells[0]]
    ensures CostsIncrease(cost, [p] + cells)
  {
    var cells' := [p] + cells;
    forall i, j | 0 <= i < j < |cells'|
      ensures cost[cells'[i]] < cost[cells'[j]]
    {
      if i == 0 && j > 1 {
        assert cost[cells[0]] < cost[cells[j - 1]];
      }
    }
  }

  /** A list along which costs strictly increase never visits a cell twice. */
  lemma CostsIncreaseNoDup(cost: CostMap, cells: seq<Coord>)
    requires CostsIncrease(cost, cells)
    ensures NoDup(cells)
  {
  }

  // ---------------------------------------------------------------------------------------
  // The search state and its invariant

  /** Every Free six-neighbour of c has a cost. */
  predicate Explored(grid: Grid, cost: CostMap, c: Coord) {
    forall i :: 0 <= i < |Directions| ==>
      IsFree(grid, Add(c, Directions[i])) ==> Add(c, Directions[i]) in cost
  }

  /** No Free cell is reachable in one step from the cells that have a cost without having
      one itself. */
  predicate Closed(grid: Grid, cost: CostMap) {
    forall c {:trigger Explored(grid, cost, c)} :: c in cost ==> Explored(grid, cost, c)
  }

  /** The CameFrom links: the start is Free with cost 0, the two maps have the same keys, and
      every other costed cell is Free and linked, by one unit step, to a costed cell of
      strictly lower cost. */
  predicate LinksValid(grid: Grid, start: Coord, cost: CostMap, cameFrom: LinkMap) {
    start in cost && cost[start] == 0 && IsFree(grid, start) && cameFrom.Keys == cost.Keys
    && forall c {:trigger cameFrom[c]} :: c in cost && c != start ==>
         IsFree(grid, c) && cameFrom[c] in cost && cost[cameFrom[c]] < cost[c] && IsStep(cameFrom[c], c)
  }

  /** Every open node sits under its own coordinate, carries that cell's cost as G, and is
      ranked by F = 2 * G + h. */
  predicate OpenValid(cost: CostMap, open: OpenSet, h: Coord -> real) {
    forall c :: c in open ==>
      c in cost && open[c].coord == c && open[c].g == cost[c] as real
      && open[c].F() == 2.0 * (cost[c] as real) + h(c)
  }

  /** A costed cell that has left the open set has been expanded, and the goal, once costed,
      never leaves the open set. */
  predicate ClosedExplored(grid: Grid, goal: Coord, cost: CostMap, open: OpenSet) {
    (goal in cost ==> goal in open)
    && forall c {:trigger Explored(grid, cost, c)} :: c in cost && c !in open ==> Explored(grid, cost, c)
  }

  predicate SearchInv(grid: Grid, start: Coord, goal: Coord, h: Coord -> real,
                      cost: CostMap, cameFrom: LinkMap, open: OpenSet) {
    LinksValid(grid, start, cost, cameFrom) && OpenValid(cost, open, h)
    && ClosedExplored(grid, goal, cost, open)
  }

  lemma ExploredGrows(grid: Grid, cost: CostMap, cost': CostMap, c: Coord)
    requires Explored(grid, cost, c) && cost.Keys <= cost'.Keys
    ensures Explored(grid, cost', c)
  {
  }

  /** A path that starts inside a closed cost set never leaves it. */
  lemma {:induction false} PathStaysInside(grid: Grid, cost: CostMap, cells: seq<Coord>, n: nat)
    requires |cells| > 0 && cells[0] in cost && Closed(grid, cost)
    requires forall i :: 0 <= i < |cells| ==> IsFree(grid, cells[i])
    requires forall i :: 0 <= i < |cells| - 1 ==> IsStep(cells[i], cells[i + 1])
    requires n < |cells|
    ensures cells[n] in cost
    decreases n
  {
    if n > 0 {
      PathStaysInside(grid, cost, cells, n - 1);
      var k := StepDirection(cells[n - 1], cells[n]);
      assert Explored(grid, cost, cells[n - 1]);
      assert IsFree(grid, Add(cells[n - 1], Directions[k]));
    }
  }

  /** No cell path leads from a costed start to an uncosted goal when the cost set is closed. */
  lemma NoPathEscapes(grid: Grid, start: Coord, goal: Coord, cost: CostMap, cells: seq<Coord>)
    requires start in cost && goal !in cost && Closed(grid, cost)
    ensures !IsCellPath(grid, start, goal, cells)
  {
    if IsCellPath(grid, start, goal, cells) {
      PathStaysInside(grid, cost, cells, |cells| - 1);
    }
  }

  /** When the open set runs empty, the goal is unreachable from the start. */
  lemma ExhaustedMeansNoPath(grid: Grid, start: Coord, goal: Coord, h: Coord -> real,
                             cost: CostMap, cameFrom: LinkMap)
    requires SearchInv(grid, start, goal, h, cost, cameFrom, map[])
    ensures forall cells :: !IsCellPath(grid, start, goal, cells)
  {
    assert goal !in cost;
    forall cells
      ensures !IsCellPath(grid, start, goal, cells)
    {
      NoPathEscapes(grid, start, goal, cost, cells);
    }
  }

  // ---------------------------------------------------------------------------------------
  // One expansion

  /** The three maps the search updates. */
  datatype SearchMaps = SearchMaps(cost: CostMap, cameFrom: LinkMap, open: OpenSet)

  /** One pass of the neighbour loop: a Free neighbour whose cost the step from current
      improves gets that cost, current as its link and an open node whose H is the
      Priority NewCost + h; anything else leaves the maps as they are. Costs never rise. */
  function RelaxOne(grid: Grid, h: Coord -> real, current: Coord, m: SearchMaps, next: Coord): SearchMaps
    requires current in m.cost
  {
    if IsFree(grid, next) && (next !in m.cost || m.cost[current] + 1 < m.cost[next]) then
      var newCost := m.cost[current] + 1;
      SearchMaps(m.cost[next := newCost], m.cameFrom[next := current],
                 m.open[next := NeighbourNode(next, current, newCost, h(next))])
    else
      m
  }

  /** The maps after the neighbour loop has handled the first k directions. The cost of
      current itself never changes, since no direction leads back to it. */
  function RelaxFirst(grid: Grid, h: Coord -> real, current: Coord, m: SearchMaps, k: nat): (r: SearchMaps)
    requires current in m.cost && k <= |Directions|
    ensures current in r.cost && r.cost[current] == m.cost[current]
    decreases k
  {
    if k == 0 then m
    else
      var p := RelaxFirst(grid, h, current, m, k - 1);
      DirectionIsStep(current, k - 1);
      RelaxOne(grid, h, current, p, Add(current, Directions[k - 1]))
  }

  /** r has every key of m, at no higher cost, and every open key of m. */
  ghost predicate Monotone(m: SearchMaps, r: SearchMaps) {
    (forall c :: c in m.cost ==> c in r.cost && r.cost[c] <= m.cost[c]) && m.open.Keys <= r.open.Keys
  }

  /** Relaxation only adds keys, and costs never rise. */
  lemma {:induction false} RelaxFirstMonotone(grid: Grid, h: Coord -> real, current: Coord, m: SearchMaps, k: nat)
    requires current in m.cost && k <= |Directions|
    ensures Monotone(m, RelaxFirst(grid, h, current, m, k))
    decreases k
  {
    if k > 0 {
      RelaxFirstMonotone(grid, h, current, m, k - 1);
    }
  }

  /** Improving one neighbour keeps the links valid. */
  lemma RelaxKeepsLinks(grid: Grid, start: Coord, cost: CostMap, cameFrom: LinkMap, current: Coord, next: Coord)
    requires LinksValid(grid, start, cost, cameFrom) && current in cost
    requires IsStep(current, next) && IsFree(grid, next)
    requires next !in cost || cost[current] + 1 < cost[next]
    ensures LinksValid(grid, start, cost[next := cost[current] + 1], cameFrom[next := current])
  {
    assert next != start;
  }

  /** Improving one neighbour keeps the open nodes valid, the new node ranked 2 * G + h. */
  lemma RelaxKeepsOpen(cost: CostMap, open: OpenSet, h: Coord -> real, current: Coord, next: Coord)
    requires OpenValid(cost, open, h) && current in cost
    ensures OpenValid(cost[next := cost[current] + 1],
                      open[next := NeighbourNode(next, current, cost[current] + 1, h(next))], h)
  {
  }

  /** One relaxation keeps the links valid. */
  lemma RelaxOneKeepsLinks(grid: Grid, start: Coord, h: Coord -> real, current: Coord, m: SearchMaps, next: Coord)
    requires current in m.cost && IsStep(current, next)
    requires LinksValid(grid, start, m.cost, m.cameFrom)
    ensures var r := RelaxOne(grid, h, current, m, next);
      LinksValid(grid, start, r.cost, r.cameFrom)
  {
    if IsFree(grid, next) && (next !in m.cost || m.cost[current] + 1 < m.cost[next]) {
      RelaxKeepsLinks(grid, start, m.cost, m.cameFrom, current, next);
    }
  }

  /** One relaxation keeps the open nodes valid. */
  lemma RelaxOneKeepsOpen(grid: Grid, h: Coord -> real, current: Coord, m: SearchMaps, next: Coord)
    requires current in m.cost
    requires OpenValid(m.cost, m.open, h)
    ensures var r := RelaxOne(grid, h, current, m, next);
      OpenValid(r.cost, r.open, h)
  {
    if IsFree(grid, next) && (next !in m.cost || m.cost[current] + 1 < m.cost[next]) {
      RelaxKeepsOpen(m.cost, m.open, h, current, next);
    }
  }

  /** Relaxation keeps the links and the open nodes valid. */
  lemma {:induction false} RelaxFirstKeeps(grid: Grid, start: Coord, h: Coord -> real, current: Coord,
                                           m: SearchMaps, k: nat)
    requires current in m.cost && k <= |Directions|
    requires LinksValid(grid, start, m.cost, m.cameFrom) && OpenValid(m.cost, m.open, h)
    ensures var r := RelaxFirst(grid, h, current, m, k);
      LinksValid(grid, start, r.cost, r.cameFrom) && OpenValid(r.cost, r.open, h)
    decreases k
  {
    if k > 0 {
      RelaxFirstKeeps(grid, start, h, current, m, k - 1);
      DirectionIsStep(current, k - 1);
      var p := RelaxFirst(grid, h, current, m, k - 1);
      RelaxOneKeepsLinks(grid, start, h, current, p, Add(current, Directions[k - 1]));
      RelaxOneKeepsOpen(grid, h, current, p, Add(current, Directions[k - 1]));
    }
  }

  /** Every entry of r that m lacks or holds at a different cost is a Free unit neighbour of
      current, at cost m.cost[current] + 1 (an improvement), linked to current and open
      under the node built for it. */
  ghost predicate OnlyNeighboursChanged(grid: Grid, h: Coord -> real, current: Coord, m: SearchMaps, r: SearchMaps)
    requires current in m.cost
  {
    forall c :: c in r.cost && (c in m.cost ==> r.cost[c] != m.cost[c]) ==>
      IsStep(current, c) && IsFree(grid, c) && r.cost[c] == m.cost[current] + 1
      && (c in m.cost ==> r.cost[c] < m.cost[c])
      && c in r.cameFrom && r.cameFrom[c] == current
      && c in r.open && r.open[c] == NeighbourNode(c, current, r.cost[c], h(c))
  }

  /** Every cell whose cost r leaves as m had it (or that neither costs) keeps its CameFrom
      entry and its open node: the three maps change together or not at all. */
  ghost predicate FrameKept(m: SearchMaps, r: SearchMaps) {
    forall c :: (c in m.cost && c in r.cost && r.cost[c] == m.cost[c]) || (c !in m.cost && c !in r.cost) ==>
      (c in r.cameFrom <==> c in m.cameFrom) && (c in m.cameFrom ==> r.cameFrom[c] == m.cameFrom[c])
      && (c in r.open <==> c in m.open) && (c in m.open ==> r.open[c] == m.open[c])
  }

  /** The neighbour loop touches CameFrom and the open set only where it changes a cost. */
  lemma {:induction false} RelaxFirstFrame(grid: Grid, h: Coord -> real, current: Coord, m: SearchMaps, k: nat)
    requires current in m.cost && k <= |Directions|
    ensures FrameKept(m, RelaxFirst(grid, h, current, m, k))
    decreases k
  {
    if k > 0 {
      RelaxFirstFrame(grid, h, current, m, k - 1);
      RelaxFirstMonotone(grid, h, current, m, k - 1);
      RelaxFirstMonotone(grid, h, current, m, k);
    }
  }

  /** One more relaxation from current keeps OnlyNeighboursChanged. */
  lemma RelaxOneChanges(grid: Grid, h: Coord -> real, current: Coord, m: SearchMaps, p: SearchMaps, next: Coord)
    requires current in m.cost && current in p.cost && p.cost[current] == m.cost[current]
    requires Monotone(m, p)
    requires IsStep(current, next)
    requires OnlyNeighboursChanged(grid, h, current, m, p)
    ensures OnlyNeighboursChanged(grid, h, current, m, RelaxOne(grid, h, current, p, next))
  {
    var r := RelaxOne(grid, h, current, p, next);
    if IsFree(grid, next) && (next !in p.cost || p.cost[current] + 1 < p.cost[next]) {
      forall c | c in r.cost && (c in m.cost ==> r.cost[c] != m.cost[c])
        ensures IsStep(current, c) && IsFree(grid, c) && r.cost[c] == m.cost[current] + 1
          && (c in m.cost ==> r.cost[c] < m.cost[c])
          && c in r.cameFrom && r.cameFrom[c] == current
          && c in r.open && r.open[c] == NeighbourNode(c, current, r.cost[c], h(c))
      {
        if c != next {
          assert r.cost[c] == p.cost[c] && r.cameFrom[c] == p.cameFrom[c] && r.open[c] == p.open[c];
        }
      }
    }
  }

  /** Every entry relaxation adds or lowers is an improved Free neighbour of current. */
  lemma {:induction false} RelaxFirstChanges(grid: Grid, h: Coord -> real, current: Coord, m: SearchMaps, k: nat)
    requires current in m.cost && k <= |Directions|
    ensures OnlyNeighboursChanged(grid, h, current, m, RelaxFirst(grid, h, current, m, k))
    decreases k
  {
    if k > 0 {
      RelaxFirstChanges(grid, h, current, m, k - 1);
      RelaxFirstMonotone(grid, h, current, m, k - 1);
      DirectionIsStep(current, k - 1);
      RelaxOneChanges(grid, h, current, m, RelaxFirst(grid, h, current, m, k - 1), Add(current, Directions[k - 1]));
    }
  }

  /** After the first k directions, each of their Free neighbours has a cost of at most
      CostSoFar[Current] + 1. */
  lemma {:induction false} RelaxFirstReaches(grid: Grid, h: Coord -> real, current: Coord, m: SearchMaps, k: nat)
    requires current in m.cost && k <= |Directions|
    ensures var r := RelaxFirst(grid, h, current, m, k);
      forall j :: 0 <= j < k ==> IsFree(grid, Add(current, Directions[j])) ==>
        Add(current, Directions[j]) in r.cost && r.cost[Add(current, Directions[j])] <= m.cost[current] + 1
    decreases k
  {
    if k > 0 {
      RelaxFirstReaches(grid, h, current, m, k - 1);
      RelaxFirstMonotone(grid, h, current, m, k - 1);
    }
  }

  /** The inner loop over the six directions, proved equal to RelaxFirst over all six. */
  method RelaxNeighbours(grid: Grid, h: Coord -> real, current: Coord,
                         cost0: CostMap, cameFrom0: LinkMap, open0: OpenSet)
    returns (cost: CostMap, cameFrom: LinkMap, open: OpenSet)
    requires current in cost0
    ensures SearchMaps(cost, cameFrom, open)
         == RelaxFirst(grid, h, current, SearchMaps(cost0, cameFrom0, open0), |Directions|)
  {
    cost, cameFrom, open := cost0, cameFrom0, open0;
    for i := 0 to |Directions|
      invariant SearchMaps(cost, cameFrom, open) == RelaxFirst(grid, h, current, SearchMaps(cost0, cameFrom0, open0), i)
    {
      var next := Add(current, Directions[i]);
      if IsFree(grid, next) {
        var newCost := cost[current] + 1;
        if next !in cost || newCost < cost[next] {
          cost := cost[next := newCost];
          cameFrom := cameFrom[next := current];
          open := open[next := NeighbourNode(next, current, newCost, h(next))];
        }
      }
    }
  }

  /** The min-F scan over the open set: the chosen coordinate is open and no open node has a
      lower F, so none precedes it. Which of several equal minima is chosen is left open, as
      the map's iteration order leaves it. */
  method SelectLowest(open: OpenSet) returns (current: Coord)
    requires |open| > 0
    ensures current in open
    ensures forall c :: c in open ==> open[current].F() <= open[c].F()
    ensures forall c :: c in open ==> !open[c].Precedes(open[current])
  {
    var rest := open.Keys;
    assert |rest| > 0;
    current :| current in rest;
    rest := rest - {current};
    while rest != {}
      invariant rest <= open.Keys && current in open
      invariant forall c :: c in open && c !in rest ==> open[current].F() <= open[c].F()
      decreases |rest|
    {
      var c :| c in rest;
      if open[c].F() < open[current].F() {
        current := c;
      }
      rest := rest - {c};
    }
  }

  /** What one expansion from current establishes about the maps it returns. */
  lemma ExpansionFacts(grid: Grid, start: Coord, h: Coord -> real, current: Coord, m: SearchMaps)
    requires current in m.cost
    requires LinksValid(grid, start, m.cost, m.cameFrom) && OpenValid(m.cost, m.open, h)
    ensures var r := RelaxFirst(grid, h, current, m, |Directions|);
      LinksValid(grid, start, r.cost, r.cameFrom) && OpenValid(r.cost, r.open, h)
      && OnlyNeighboursChanged(grid, h, current, m, r) && FrameKept(m, r) && Monotone(m, r)
      && Explored(grid, r.cost, current)
  {
    RelaxFirstFrame(grid, h, current, m, |Directions|);
    RelaxFirstKeeps(grid, start, h, current, m, |Directions|);
    RelaxFirstChanges(grid, h, current, m, |Directions|);
    RelaxFirstReaches(grid, h, current, m, |Directions|);
    RelaxFirstMonotone(grid, h, current, m, |Directions|);
  }

  /** Expanding a non-goal open node keeps every closed costed cell expanded and the goal,
      once costed, open. */
  lemma ExpansionKeepsClosed(grid: Grid, goal: Coord, h: Coord -> real, current: Coord,
                             cost0: CostMap, cameFrom0: LinkMap, open0: OpenSet, r: SearchMaps)
    requires ClosedExplored(grid, goal, cost0, open0)
    requires current in cost0 && current in open0 && current != goal
    requires OnlyNeighboursChanged(grid, h, current, SearchMaps(cost0, cameFrom0, open0 - {current}), r)
    requires Monotone(SearchMaps(cost0, cameFrom0, open0 - {current}), r)
    requires Explored(grid, r.cost, current)
    ensures ClosedExplored(grid, goal, r.cost, r.open)
  {
    var m := SearchMaps(cost0, cameFrom0, open0 - {current});
    forall c | c in r.cost && c !in r.open
      ensures Explored(grid, r.cost, c)
    {
      assert c in cost0 && c !in m.open;
      if c != current {
        ExploredGrows(grid, cost0, r.cost, c);
      }
    }
  }

  /** Algo::Reverse on the waypoint array. */
  method ReversePath(a: array<Vec3>)
    modifies a
    ensures a[..] == Reversed(old(a[..]))
  {
    var i, j := 0, a.Length - 1;
    while i < j
      invariant 0 <= i <= a.Length && j == a.Length - 1 - i && i <= j + 1
      invariant forall k :: 0 <= k < i ==> a[k] == old(a[a.Length - 1 - k]) && a[a.Length - 1 - k] == old(a[k])
      invariant forall k :: i <= k <= j ==> a[k] == old(a[k])
    {
      a[i], a[j] := a[j], a[i];
      i, j := i + 1, j - 1;
    }
    forall k | 0 <= k < a.Length
      ensures a[k] == Reversed(old(a[..]))[k]
    {
      ReversedAt(old(a[..]), k);
    }
  }

  // ---------------------------------------------------------------------------------------
  // The search

  /** The search shared by both subsystems. maxIter is the iteration ceiling, startLink the
      CameFrom entry of the start, firstPoint the waypoint standing for the start, and h the
      distance heuristic. The iteration count is returned so its bound can be stated.
      - an absent or non-Free start gives the empty path after no iteration;
      - the loop runs at most maxIter times;
      - a non-empty path is the waypoint list of a Free cell path from start to goal;
      - an empty path found before the ceiling means no such cell path exists;
      - start == goal gives exactly [firstPoint]. */
  method Search(grid: Grid, start: Coord, goal: Coord, h: Coord -> real, maxIter: int,
                startLink: Coord, firstPoint: Vec3, s: real)
    returns (path: seq<Vec3>, iterations: nat)
    ensures !IsFree(grid, start) ==> path == [] && iterations == 0
    ensures iterations <= maxIter || iterations == 0
    ensures path != [] ==>
      exists cells :: IsCellPath(grid, start, goal, cells) && NoDup(cells) && path == Waypoints(cells, firstPoint, s)
    ensures path == [] && IsFree(grid, start) && iterations < maxIter ==>
      forall cells :: !IsCellPath(grid, start, goal, cells)
    ensures start == goal && IsFree(grid, start) && maxIter > 0 ==> path == [firstPoint] && iterations == 1
  {
    if !IsFree(grid, start) {
      return [], 0;
    }
    var open: OpenSet := map[start := StartNode(start, h(start))];
    var cost: CostMap := map[start := 0];
    var cameFrom: LinkMap := map[start := startLink];
    var found := false;
    iterations := 0;
    while |open| > 0 && iterations < maxIter
      invariant SearchInv(grid, start, goal, h, cost, cameFrom, open)
      invariant iterations <= maxIter || iterations == 0
      invariant !found
      invariant iterations == 0 ==> open == map[start := StartNode(start, h(start))]
      invariant start == goal ==> iterations == 0
      decreases maxIter - iterations
    {
      iterations := iterations + 1;
      var current := SelectLowest(open);
      if current == goal {
        found := true;
        break;
      }
      var cost', cameFrom', open' := RelaxNeighbours(grid, h, current, cost, cameFrom, open - {current});
      ExpansionFacts(grid, start, h, current, SearchMaps(cost, cameFrom, open - {current}));
      ExpansionKeepsClosed(grid, goal, h, current, cost, cameFrom, open, SearchMaps(cost', cameFrom', open'));
      cost, cameFrom, open := cost', cameFrom', open';
    }

    if !found {
      if iterations < maxIter {
        assert open == map[];
        ExhaustedMeansNoPath(grid, start, goal, h, cost, cameFrom);
      }
      return [], iterations;
    }

    path := Reconstruct(grid, start, goal, cost, cameFrom, firstPoint, s);
  }

  /** One step of the reconstruction walk: moving from curr to its CameFrom parent keeps the
      walked cells a Free unit-step path to the goal at strictly increasing cost, and the
      collected points the reversed centres of all but the first walked cell. */
  lemma WalkBackStep(grid: Grid, start: Coord, goal: Coord, cost: CostMap, cameFrom: LinkMap,
                     curr: Coord, cells: seq<Coord>, points: seq<Vec3>, s: real)
    requires LinksValid(grid, start, cost, cameFrom) && curr in cost && curr != start
    requires IsCellPath(grid, curr, goal, cells) && Reversed(points) == Centres(cells[1..], s)
    requires CostsIncrease(cost, cells) && goal in cost && |cells| - 1 <= cost[goal] - cost[curr]
    ensures var parent := cameFrom[curr];
      parent in cost && cost[parent] < cost[curr]
      && IsCellPath(grid, parent, goal, [parent] + cells)
      && Reversed(points + [GridToWorld(curr, s)]) == Centres(([parent] + cells)[1..], s)
      && CostsIncrease(cost, [parent] + cells) && |[parent] + cells| - 1 <= cost[goal] - cost[parent]
  {
    var parent := cameFrom[curr];
    CellPathCons(grid, parent, goal, cells);
    CostsIncreaseCons(cost, parent, cells);
    CentresCons(curr, cells[1..], s);
    ReversedSnoc(points, GridToWorld(curr, s));
    assert cells == [curr] + cells[1..];
    assert ([parent] + cells)[1..] == cells;
  }

  /** The reconstruction: follow CameFrom from the goal back to the start, adding each
      cell's centre, add the first point, then reverse. The result is the waypoint list of a
      Free cell path from start to goal, and just the first point when start == goal. */
  method Reconstruct(grid: Grid, start: Coord, goal: Coord, cost: CostMap, cameFrom: LinkMap,
                     firstPoint: Vec3, s: real)
    returns (path: seq<Vec3>)
    requires LinksValid(grid, start, cost, cameFrom) && goal in cost
    ensures exists cells ::
              IsCellPath(grid, start, goal, cells) && NoDup(cells) && |cells| <= cost[goal] + 1
              && path == Waypoints(cells, firstPoint, s)
    ensures start == goal ==> path == [firstPoint]
  {
    var points: seq<Vec3> := [];
    var curr := goal;
    ghost var cells := [goal];
    while curr != start
      invariant curr in cost
      invariant IsCellPath(grid, curr, goal, cells)
      invariant Reversed(points) == Centres(cells[1..], s)
      invariant CostsIncrease(cost, cells) && |cells| - 1 <= cost[goal] - cost[curr]
      invariant start == goal ==> curr == goal && points == [] && cells == [goal]
      decreases cost[curr]
    {
      if curr in cameFrom {
        var parent := cameFrom[curr];
        WalkBackStep(grid, start, goal, cost, cameFrom, curr, cells, points, s);
        points := points + [GridToWorld(curr, s)];
        curr := parent;
        cells := [curr] + cells;
      } else {
        assert false;
        break;
      }
    }
    ReversedSnoc(points, firstPoint);
    points := points + [firstPoint];
    var a := new Vec3[|points|](i requires 0 <= i < |points| => points[i]);
    assert a[..] == points;
    ReversePath(a);
    path := a[..];
    assert path == Waypoints(cells, firstPoint, s);
    CostsIncreaseNoDup(cost, cells);
  }

  /** PerformAStarSearch's ceiling. */
  const GridSubsystemMaxIter: int := 5000

  /** PerformAStarSearch: at most 5000 iterations, the start linked to itself, and the exact
      StartWorld as the first waypoint. */
  method PerformAStarSearch(grid: Grid, startGrid: Coord, endGrid: Coord, s: real, startWorld: Vec3,
                            h: Coord -> real)
    returns (path: seq<Vec3>, iterations: nat)
    ensures !IsFree(grid, startGrid) ==> path == [] && iterations == 0
    ensures iterations <= GridSubsystemMaxIter
    ensures path != [] ==> path[0] == startWorld
    ensures path != [] ==>
      exists cells :: IsCellPath(grid, startGrid, endGrid, cells) && NoDup(cells) && path == Waypoints(cells, startWorld, s)
    ensures path == [] && IsFree(grid, startGrid) && iterations < GridSubsystemMaxIter ==>
      forall cells :: !IsCellPath(grid, startGrid, endGrid, cells)
    ensures startGrid == endGrid && IsFree(grid, startGrid) ==> path == [startWorld]
  {
    path, iterations := Search(grid, startGrid, endGrid, h, GridSubsystemMaxIter, startGrid, startWorld, s);
  }

  /** PerformAStarSearchTick: at most MaxIterInternal iterations, the start linked to
      ZeroValue, and the start cell's centre as the first waypoint, so every waypoint is the
      centre of a cell of the path. */
  method PerformAStarSearchTick(grid: Grid, startGrid: Coord, endGrid: Coord, s: real, maxIterInternal: int,
                                h: Coord -> real)
    returns (path: seq<Vec3>, iterations: nat)
    ensures !IsFree(grid, startGrid) ==> path == [] && iterations == 0
    ensures iterations <= maxIterInternal || iterations == 0
    ensures path != [] ==>
      exists cells :: IsCellPath(grid, startGrid, endGrid, cells) && NoDup(cells) && path == Centres(cells, s)
    ensures path == [] && IsFree(grid, startGrid) && iterations < maxIterInternal ==>
      forall cells :: !IsCellPath(grid, startGrid, endGrid, cells)
    ensures startGrid == endGrid && IsFree(grid, startGrid) && maxIterInternal > 0 ==>
      path == [GridToWorld(startGrid, s)]
  {
    path, iterations := Search(grid, startGrid, endGrid, h, maxIterInternal, ZeroCoord, GridToWorld(startGrid, s), s);
    if path != [] {
      ghost var cells :| IsCellPath(grid, startGrid, endGrid, cells) && NoDup(cells)
        && path == Waypoints(cells, GridToWorld(startGrid, s), s);
      WaypointsFromCentre(cells, s);
    }
  }

  /** FindPathAsync: both end points are quantized with WorldToGrid and the search runs
      between their cells with the exact start point as first waypoint. A found path starts
      inside the start point's cell and ends inside the end point's cell. */
  method FindPath(grid: Grid, startWorld: Vec3, endWorld: Vec3, s: real, h: Coord -> real)
    returns (path: seq<Vec3>, iterations: nat)
    requires s > 0.0
    ensures !IsFree(grid, WorldToGrid(startWorld, s)) ==> path == [] && iterations == 0
    ensures iterations <= GridSubsystemMaxIter
    ensures WorldToGrid(startWorld, s) == WorldToGrid(endWorld, s) && IsFree(grid, WorldToGrid(startWorld, s)) ==>
      path == [startWorld]
    ensures path != [] ==>
      exists cells :: IsCellPath(grid, WorldToGrid(startWorld, s), WorldToGrid(endWorld, s), cells)
        && NoDup(cells) && path == Waypoints(cells, startWorld, s)
    ensures path != [] ==> InCell(path[0], WorldToGrid(startWorld, s), s)
    ensures path != [] ==> InCell(path[|path| - 1], WorldToGrid(endWorld, s), s)
    ensures path == [] && IsFree(grid, WorldToGrid(startWorld, s)) && iterations < GridSubsystemMaxIter ==>
      forall cells :: !IsCellPath(grid, WorldToGrid(startWorld, s), WorldToGrid(endWorld, s), cells)
  {
    var startGrid := WorldToGrid(startWorld, s);
    var endGrid := WorldToGrid(endWorld, s);
    path, iterations := PerformAStarSearch(grid, startGrid, endGrid, s, startWorld, h);
    if path != [] {
      ghost var cells :| IsCellPath(grid, startGrid, endGrid, cells) && NoDup(cells)
        && path == Waypoints(cells, startWorld, s);
      WaypointsShape(cells, startWorld, s);
      WorldToGridIsCell(startWorld, startGrid, s);
      GridToWorldInCell(endGrid, s);
    }
  }

  /** FindPathAsyncTick: the same quantization; every waypoint of a found path is the centre
      of a cell of the path, the first inside the start point's cell and the last inside the
      end point's cell. */
  method FindPathTick(grid: Grid, startWorld: Vec3, endWorld: Vec3, s: real, maxIterInternal: int,
                      h: Coord -> real)
    returns (path: seq<Vec3>, iterations: nat)
    requires s > 0.0
    ensures !IsFree(grid, WorldToGrid(startWorld, s)) ==> path == [] && iterations == 0
    ensures iterations <= maxIterInternal || iterations == 0
    ensures WorldToGrid(startWorld, s) == WorldToGrid(endWorld, s) && IsFree(grid, WorldToGrid(startWorld, s)) && maxIterInternal > 0 ==>
      path == [GridToWorld(WorldToGrid(startWorld, s), s)]
    ensures path != [] ==>
      exists cells :: IsCellPath(grid, WorldToGrid(startWorld, s), WorldToGrid(endWorld, s), cells)
        && NoDup(cells) && path == Centres(cells, s)
    ensures path != [] ==> InCell(path[0], WorldToGrid(startWorld, s), s)
    ensures path != [] ==> InCell(path[|path| - 1], WorldToGrid(endWorld, s), s)
    ensures path == [] && IsFree(grid, WorldToGrid(startWorld, s)) && iterations < maxIterInternal ==>
      forall cells :: !IsCellPath(grid, WorldToGrid(startWorld, s), WorldToGrid(endWorld, s), cells)
  {
    var startGrid := WorldToGrid(startWorld, s);
    var endGrid := WorldToGrid(endWorld, s);
    path, iterations := PerformAStarSearchTick(grid, startGrid, endGrid, s, maxIterInternal, h);
    if path != [] {
      ghost var cells :| IsCellPath(grid, startGrid, endGrid, cells) && NoDup(cells) && path == Centres(cells, s);
      GridToWorldInCell(startGrid, s);
      GridToWorldInCell(endGrid, s);
    }
  }
}
