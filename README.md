# Voxel grid generation and A* pathfinding

This project models the voxel pathfinding core of an Unreal Engine project. The core keeps
a sparse occupancy grid that maps integer cells (`FIntVector`) to a state: `Unknown`, `Free`
or `Blocked`. A coordinate missing from the map counts as Unknown.

Grid generation has four steps:

1. A region request enumerates the cube of offsets `[-R,R]^3` around a world point's cell and
   keeps the offsets that pass an inclusion test, on a worker thread.
2. Back on the game thread, every candidate not yet in the grid is queued without duplicates.
3. Each tick, a dispatcher pops the queue from the back and issues at most a fixed number of
   asynchronous overlap probes. It records each probe's handle in a pending table.
4. When a probe completes, its cell is committed as `Blocked` if something overlapped it and
   as `Free` otherwise.

A path request runs A* over a snapshot of the grid. The search is six-connected and every
step costs 1. Once the goal is taken from the open set, the route is read back along the
`CameFrom` links, reversed, and returned as world waypoints.

The code exists in three near-duplicate versions:

- `UVoxelGridSubsystem`;
- `UVoxelTickableSubsystem`;
- the test actor `AVoxelTestMultithread`, which has generation only.

The model is one core with the differences as parameters:

- the region's inclusion test (`RegionExpansion.InclusionTest`);
- the dispatcher's bounds test (`inBounds`, which accepts every point in the plugins);
- the search's iteration ceiling, its start link and its first waypoint (`AStar.Search`, with
  the two `PerformAStarSearch*` wrappers fixing them).

Modules, one file each:

- `VoxelTypes` (`voxel_types.dfy`): coordinates, the state enum (exactly `Unknown`, `Free`,
  `Blocked`), the voxel record, the six directions and the classifier.
- `CoordinateMapping` (`coordinate_mapping.dfy`): `WorldToGrid` and `GridToWorld` over the
  reals.
- `RegionExpansion` (`region_expansion.dfy`): the triple loop of the region job.
- `Generation` (`generation.dfy`): the queue, the dispatcher and probe completion. The
  generator state is a class: grid, queue, pending table and the next probe handle.
- `PathNodes` (`path_node.dfy`): `FPathNode` / `FPathNodeTick`.
- `AStar` (`astar.dfy`): the search, the relaxation as a specification function, the
  completeness argument and the path reconstruction.
- `Sequences` (`sequences.dfy`): duplicate-freedom and reversal.

The search keeps an invariant `SearchInv` with three parts:

- **Cost links.** Every costed cell other than the start is Free. It is linked to a costed
  unit-step neighbour of strictly lower cost, so the reconstruction loop ends at the start.
- **Open nodes.** Every open node carries its cell's cost. It is ranked by `2*g + h`, the
  quirk described below.
- **Expanded cells.** Every costed cell that has left the open set has all its Free
  neighbours costed.

From the third part, an open set that runs empty before the ceiling means that no Free cell
path joins start and goal.

The ranking quirk: a relaxation passes `NewCost + dist` as the node's H, so the value the
scan minimises is `F = 2*g + dist`. The start node's F is `dist` alone, which is the `g = 0`
case of the same formula.

## Model

| member | source | states |
|---|---|---|
| VoxelTypes.Classify | Plugins/VoxelGridPathfinding/Source/VoxelGridPathfinding/Private/VoxelGridSubsystem.cpp:166-178 | the committed state is never Unknown; it is Blocked exactly when the probe reported an overlap and Free exactly when it reported none |
| VoxelTypes.StepDirection | Plugins/VoxelGridPathfinding/Source/VoxelGridPathfinding/Private/VoxelGridSubsystem.cpp:258-262 | every unit axis step from a cell is one of the six listed directions applied to it |
| CoordinateMapping.WorldToGrid | Plugins/VoxelGridPathfinding/Source/VoxelGridPathfinding/Private/VoxelGridSubsystem.cpp:372-379 | the cell of a world point, floor(p/s) per axis; WorldToGridIsCell characterises it as the unique cell containing p |
| CoordinateMapping.GridToWorld | Plugins/VoxelGridPathfinding/Source/VoxelGridPathfinding/Private/VoxelGridSubsystem.cpp:381-388 | the centre c*s + s/2 of a cell; GridToWorldRoundTrip and QuantizationError relate it to WorldToGrid |
| CoordinateMapping.CeilToInt | Plugins/VoxelGridPathfinding/Source/VoxelGridPathfinding/Private/VoxelGridSubsystem.cpp:80 | FMath::CeilToInt returns the least integer not below its argument |
| CoordinateMapping.WorldToGridIsCell | Plugins/VoxelGridPathfinding/Source/VoxelGridPathfinding/Private/VoxelGridSubsystem.cpp:372-379 | WorldToGrid(p) == c holds if and only if p lies in the half-open cube [c*s, (c+1)*s) on every axis |
| CoordinateMapping.GridToWorldRoundTrip | Plugins/VoxelGridPathfinding/Source/VoxelGridPathfinding/Private/VoxelGridSubsystem.cpp:381-388 | for s > 0, WorldToGrid(GridToWorld(c)) == c |
| CoordinateMapping.QuantizationError | Source/Unreal2CPP/Private/VoxelTestMultithread.cpp:189-205 | quantizing a world point to its cell centre moves it by at least -s/2 and less than s/2 on each axis |
| RegionExpansion.GridRadius | Plugins/VoxelGridPathfinding/Source/VoxelGridPathfinding/Private/VoxelTickableSubsystem.cpp:59-82 | the radius in voxels R satisfies (R-1)*s < Radius <= R*s |
| RegionExpansion.Region | Plugins/VoxelGridPathfinding/Source/VoxelGridPathfinding/Private/VoxelGridSubsystem.cpp:90-101 | the candidate list of the triple loop in visiting order; RegionMembers characterises its members and ExpandRegion computes it |
| RegionExpansion.RegionMembers | Plugins/VoxelGridPathfinding/Source/VoxelGridPathfinding/Private/VoxelGridSubsystem.cpp:90-101 | a coordinate is a region candidate if and only if its offset from the centre lies in [-R,R]^3 and passes the inclusion test |
| RegionExpansion.ExpandRegion | Plugins/VoxelGridPathfinding/Source/VoxelGridPathfinding/Private/VoxelGridSubsystem.cpp:79-102 | the triple loop yields the region list in x, y, z visiting order; its members are exactly the selected cells around WorldToGrid(Center) with R = ceil(Radius/VoxelSize) |
| RegionExpansion.CrossTermIsAnisotropic | Plugins/VoxelGridPathfinding/Source/VoxelGridPathfinding/Private/VoxelTickableSubsystem.cpp:76 | the plugins' test x*x + y*y*z*z <= R*R keeps (2,0,2) but not (0,2,2); it also keeps (2,2,0), which the sphere test rejects |
| RegionExpansion.SphereIsIsotropic | Source/Unreal2CPP/Private/VoxelTestMultithread.cpp:81 | the test actor's x*x + y*y + z*z <= R*R is invariant under permuting and negating axes |
| RegionExpansion.RegionOfRadiusZero | Source/Unreal2CPP/Private/VoxelTestMultithread.cpp:64-87 | with R = 0 the region is exactly the centre cell, under either test |
| Generation.AddUnique | Plugins/VoxelGridPathfinding/Source/VoxelGridPathfinding/Private/VoxelGridSubsystem.cpp:113 | the result holds the old queue as a prefix plus c, grows by at most one, and stays duplicate-free |
| Generation.Enqueued | Plugins/VoxelGridPathfinding/Source/VoxelGridPathfinding/Private/VoxelGridSubsystem.cpp:108-114 | the queue after the game-thread loop admits each candidate in order; EnqueuedProperties characterises it |
| Generation.EnqueuedProperties | Plugins/VoxelGridPathfinding/Source/VoxelGridPathfinding/Private/VoxelGridSubsystem.cpp:108-114 | enqueueing a candidate list keeps the queue duplicate-free and keeps its old contents as a prefix; it adds exactly the candidates absent from the grid |
| Generation.DispatchableOf | Source/Unreal2CPP/Private/VoxelTestMultithread.cpp:116-124 | the dispatchable coordinates of a list are exactly those that are unclassified and whose centre is in bounds |
| Generation.Drain | Plugins/VoxelGridPathfinding/Source/VoxelGridPathfinding/Private/VoxelGridSubsystem.cpp:126-156 | the dispatcher loop as a function of the queue and the cap; DrainIsLifoBatch determines its outcome and ProcessQueue computes it |
| Generation.DrainIsLifoBatch | Plugins/VoxelGridPathfinding/Source/VoxelGridPathfinding/Private/VoxelGridSubsystem.cpp:124-131 | one dispatcher call pops a suffix of the queue and probes that suffix's dispatchable coordinates, most recent first; it issues at most the cap, stops early only on an empty queue, pops nothing once the cap is reached (the last popped coordinate was probed), and skipped coordinates do not use the cap |
| Generation.ProbeTableOfRun | Plugins/VoxelGridPathfinding/Source/VoxelGridPathfinding/Private/VoxelGridSubsystem.cpp:154 | probes with consecutive handles from base tabulate to exactly the handles base .. base+n-1, each mapped to its own probe's coordinate |
| Generation.PendingAfterRun | Plugins/VoxelGridPathfinding/Source/VoxelGridPathfinding/Private/VoxelGridSubsystem.cpp:154 | after a dispatch the pending table maps every new probe's handle to that probe's coordinate, whatever it held before |
| Generation.VoxelGenerator.constructor | Plugins/VoxelGridPathfinding/Source/VoxelGridPathfinding/Private/VoxelGridSubsystem.cpp:33-51 | a new generator takes VoxelSize and MaxRequestsPerTick from the settings, starts with an empty grid, queue and pending table, and satisfies the generator invariant |
| Generation.VoxelGenerator.EnqueueCandidates | Plugins/VoxelGridPathfinding/Source/VoxelGridPathfinding/Private/VoxelTickableSubsystem.cpp:88-95 | the queue becomes Enqueued(old queue, grid, candidates); grid, pending table and handle counter are unchanged; the invariant is kept |
| Generation.VoxelGenerator.RequestRegion | Source/Unreal2CPP/Private/VoxelTestMultithread.cpp:55-104 | the new queue is the old one with the region's candidates admitted in the loop's x, y, z order; the old queue stays a prefix; a cell is queued if and only if it was queued before or is unclassified and selected by the region; nothing else changes |
| Generation.VoxelGenerator.ProcessQueue | Source/Unreal2CPP/Private/VoxelTestMultithread.cpp:107-146 | the new queue and the probed coordinates are what Drain specifies; probes carry consecutive fresh handles and their cells' centres; the pending table gains exactly handle -> coord for each probe; the grid is unchanged |
| Generation.VoxelGenerator.OnTraceCompleted | Plugins/VoxelGridPathfinding/Source/VoxelGridPathfinding/Private/VoxelGridSubsystem.cpp:159-186 | an unknown handle changes nothing and publishes nothing; a known handle leaves the table, and its cell is committed and published as Classify(overlaps); Unknown is never stored |
| PathNodes.DefaultNode | Plugins/VoxelGridPathfinding/Source/VoxelGridPathfinding/Public/VoxelTickableSubsystem.h:41 | the default node has G == H == FCost == 0 |
| PathNodes.StartNode | Plugins/VoxelGridPathfinding/Source/VoxelGridPathfinding/Private/VoxelGridSubsystem.cpp:251-254 | the start node has its coordinate, parent ZeroValue, G = 0 and H = the start's heuristic, so its total is the heuristic alone |
| PathNodes.NeighbourNode | Plugins/VoxelGridPathfinding/Source/VoxelGridPathfinding/Private/VoxelTickableSubsystem.cpp:313-333 | the stored neighbour keeps its coordinate, parent and cost, and its total is 2*cost + dist |
| PathNodes.PrecedesIsStrictOrder | Plugins/VoxelGridPathfinding/Source/VoxelGridPathfinding/Public/VoxelTickableSubsystem.h:47-50 | operator< is irreflexive, asymmetric and transitive, and two nodes neither of which precedes the other have equal totals |
| AStar.SelectLowest | Plugins/VoxelGridPathfinding/Source/VoxelGridPathfinding/Private/VoxelGridSubsystem.cpp:273-283 | the chosen cell is open and its F is no greater than that of any open node |
| AStar.RelaxOne | Plugins/VoxelGridPathfinding/Source/VoxelGridPathfinding/Private/VoxelGridSubsystem.cpp:304-322 | one pass of the neighbour loop; RelaxOneChanges and RelaxOneKeepsLinks / RelaxOneKeepsOpen state its effect |
| AStar.RelaxFirst | Plugins/VoxelGridPathfinding/Source/VoxelGridPathfinding/Private/VoxelGridSubsystem.cpp:301-323 | the neighbour loop over the first k directions; it keeps the cost of current, and RelaxFirstChanges, RelaxFirstFrame, RelaxFirstReaches and RelaxFirstKeeps characterise it |
| AStar.RelaxNeighbours | Plugins/VoxelGridPathfinding/Source/VoxelGridPathfinding/Private/VoxelGridSubsystem.cpp:301-323 | the neighbour loop's maps equal RelaxFirst over all six directions |
| AStar.RelaxFirstChanges | Plugins/VoxelGridPathfinding/Source/VoxelGridPathfinding/Private/VoxelTickableSubsystem.cpp:307-334 | a cell whose cost is added or lowered is a Free unit-step neighbour of current; it gets cost g(current)+1, strictly below its old cost, with current as its link and the matching neighbour node |
| AStar.RelaxFirstFrame | Plugins/VoxelGridPathfinding/Source/VoxelGridPathfinding/Private/VoxelTickableSubsystem.cpp:327-333 | a cell whose cost the neighbour loop leaves unchanged, or that stays uncosted, keeps its CameFrom entry and its open node: GScore, CameFrom and OpenSet change together or not at all |
| AStar.RelaxFirstReaches | Plugins/VoxelGridPathfinding/Source/VoxelGridPathfinding/Private/VoxelGridSubsystem.cpp:301-323 | after the loop every Free neighbour of current is costed at no more than g(current)+1 |
| AStar.RelaxFirstKeeps | Plugins/VoxelGridPathfinding/Source/VoxelGridPathfinding/Private/VoxelGridSubsystem.cpp:253-322 | relaxation keeps the link invariant (costs strictly decrease along CameFrom) and the open-node invariant |
| AStar.ExhaustedMeansNoPath | Plugins/VoxelGridPathfinding/Source/VoxelGridPathfinding/Private/VoxelGridSubsystem.cpp:268-324 | when the open set is empty under the search invariant, no Free cell path joins start and goal |
| AStar.NoPathEscapes | Plugins/VoxelGridPathfinding/Source/VoxelGridPathfinding/Private/VoxelTickableSubsystem.cpp:274-335 | no Free unit-step path leaves a set of costed, fully expanded cells to reach an uncosted goal |
| AStar.WaypointsShape | Plugins/VoxelGridPathfinding/Source/VoxelGridPathfinding/Private/VoxelGridSubsystem.cpp:329-354 | the waypoint list has one point per cell; the first is the given first point and each later one is its cell's centre, mapping back to that cell; a path of two or more cells ends at the goal centre |
| AStar.WalkBackStep | Plugins/VoxelGridPathfinding/Source/VoxelGridPathfinding/Private/VoxelGridSubsystem.cpp:330-350 | one step from a cell to its CameFrom parent reaches a costed cell of strictly lower cost and keeps the walked cells a Free unit-step path to the goal, at strictly increasing cost |
| AStar.CostsIncreaseNoDup | Plugins/VoxelGridPathfinding/Source/VoxelGridPathfinding/Private/VoxelGridSubsystem.cpp:330-350 | a cell list along which CostSoFar strictly increases never visits a cell twice |
| AStar.ReversePath | Plugins/VoxelGridPathfinding/Source/VoxelGridPathfinding/Private/VoxelGridSubsystem.cpp:354 | the array afterwards holds the reverse of its old contents |
| AStar.Reconstruct | Plugins/VoxelGridPathfinding/Source/VoxelGridPathfinding/Private/VoxelGridSubsystem.cpp:326-356 | following CameFrom from goal to start terminates and yields the waypoints of a Free unit-step cell path from start to goal that visits no cell twice and has at most CostSoFar[goal] + 1 cells; start == goal gives exactly [first point] |
| AStar.Search | Plugins/VoxelGridPathfinding/Source/VoxelGridPathfinding/Private/VoxelGridSubsystem.cpp:216-369 | a non-Free start gives [] after no iteration; the loop runs at most maxIter times; a non-empty result is the waypoint list of a Free cell path without repeated cells; an empty result before the ceiling means no path exists; start == goal gives [first point] |
| AStar.PerformAStarSearch | Plugins/VoxelGridPathfinding/Source/VoxelGridPathfinding/Private/VoxelGridSubsystem.cpp:216-369 | as Search with ceiling 5000, the start linked to itself: a path starts at the exact StartWorld and repeats no cell; start == goal gives [StartWorld] |
| AStar.PerformAStarSearchTick | Plugins/VoxelGridPathfinding/Source/VoxelGridPathfinding/Private/VoxelTickableSubsystem.cpp:208-382 | as Search with ceiling MaxIterInternal: a found path is exactly the list of centres of a Free cell path from StartGrid to the goal that repeats no cell, so it starts at GridToWorldTick(StartGrid) |
| AStar.FindPath | Plugins/VoxelGridPathfinding/Source/VoxelGridPathfinding/Private/VoxelGridSubsystem.cpp:190-214 | both end points are quantized with WorldToGrid; a non-Free start cell gives [] after no iteration; at most 5000 iterations; end points in the same Free cell give exactly [StartWorld]; a found path is the waypoint list of a Free cell path between their cells that repeats no cell, its first point in the start point's cell and its last in the end point's cell; an empty result below the ceiling means no path exists |
| AStar.FindPathTick | Plugins/VoxelGridPathfinding/Source/VoxelGridPathfinding/Private/VoxelTickableSubsystem.cpp:192-206 | as FindPath for the tickable subsystem, with ceiling MaxIterInternal: end points in the same Free cell give exactly [GridToWorldTick(StartGrid)], and every waypoint of a found path is a cell centre, the first in the start point's cell and the last in the end point's cell |

## Left out

- Threading: the worker-thread hops (`Async`, `AsyncTask`) are not modelled. Region
  expansion and enqueueing are two sequential steps on one state. The search reads a value
  of the grid, so the unsynchronised read from a worker is not modelled either.
- Events: delegate broadcasts (`OnVoxelUpdated`, the path-found callbacks) become return
  values.
- Physics probe: `AsyncOverlapByChannel`, the collision shape and its 0.9 / 0.95 shrink
  factors are not modelled. A probe gets a fresh handle from a counter in the generator. Its
  result arrives as an overlap count passed to `OnTraceCompleted`.
- Floating point: positions and the voxel size are reals. `FloorToInt` and `CeilToInt` are
  exact, and costs are whole step counts (`nat`) rather than floats.
- Heuristic: the Euclidean heuristic (`FVector::Dist`, a square root) is an abstract function
  `h`. No proof needs it to be nonnegative.
- `FLT_MAX`: the sentinel in the min-F scan is replaced by a scan that starts from an
  arbitrary open node.
- Tie-breaking: which of several equally low open nodes the scan picks depends on map
  iteration order. `SelectLowest` may return any of them.
- Bounds test: the test actor's actor-transform bounds test is the parameter `inBounds`. The
  plugin subsystems have no bounds test, which is `inBounds` always true.
- Rendering, debug drawing and logging (HISM instances, `UE_LOG`) are not modelled.
- Blueprint wrappers, settings and construction: these are parameters or constructor
  arguments (`VoxelSize`, `MaxRequestsPerTick`, `MaxIterInternal`).
  - The `Tick()` wrapper is left out; all it does is call the dispatcher when the queue is
    non-empty.
- Mismatched header declarations: signatures declared in headers that disagree with the
  `.cpp` files are not modelled. These are an extra box extent, a request id and a
  two-argument path callback; the model follows the `.cpp` behaviour.
- Integer width: the region arithmetic is on unbounded integers. For large radii the 32-bit
  products `y*y*z*z` and `SideLength^3` overflow in the source; the model does not reproduce
  that.
- Voxel size: every member that divides by it requires a voxel size greater than zero.
- AStar.Search, AStar.PerformAStarSearch, AStar.PerformAStarSearchTick, AStar.FindPath,
  AStar.FindPathTick: do not promise a shortest path. The source does return one:
  - ranking by `2*g + dist` is ranking by `g + dist/2`;
  - the Euclidean distance in grid units never exceeds the step distance, so `dist/2` is a
    consistent heuristic;
  - re-opening a node whose cost improves keeps A* without a closed set optimal.

  Here the heuristic `h` is abstract, so optimality would need `h(goal) == 0` and `h` at most
  twice the step distance as extra assumptions. These members state soundness (a Free
  unit-step path that repeats no cell), completeness below the ceiling and termination.
- AStar.Search: returns the iteration count in addition to the path, so the ceiling can be
  stated.
- Generation.VoxelGenerator.ProcessQueue: does not promise that a coordinate is pending under
  at most one handle. A coordinate re-queued while its probe is in flight is probed again in
  the source, and the model follows that.
- PathNodes.DefaultNode: the source leaves the node's coordinates uninitialised; the model
  takes them as arguments.
- The default voxel record's state is Unknown (`VoxelTypes.DefaultVoxelData`). It is a
  constant, so it has no contract of its own.
