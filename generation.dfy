/** The main-thread half of grid generation, shared by UVoxelGridSubsystem,
    UVoxelTickableSubsystem and AVoxelTestMultithread: the generation queue, the per-tick
    dispatcher that issues spatial probes, the table of probes in flight, and the commit of a
    probe's outcome to the occupancy grid. */
module Generation {
  import opened VoxelTypes
  import opened Sequences
  import opened CoordinateMapping
  import opened RegionExpansion

  /** An opaque probe handle (FTraceHandle). */
  type Handle = nat

  /** A dispatched probe: its handle, the coordinate it classifies and the world point it is
      centred on. */
  datatype Probe = Probe(handle: Handle, coord: Coord, center: Vec3)

  /** The event a completed probe publishes (OnVoxelUpdated / OnVoxelTickUpdated). */
  datatype Classification = Classification(coord: Coord, state: VoxelState)

  // ---------------------------------------------------------------------------------------
  // Enqueueing

  /** TArray::AddUnique: append c unless it is already present. */
  function AddUnique(q: seq<Coord>, c: Coord): (r: seq<Coord>)
    ensures forall d :: d in r <==> d in q || d == c
    ensures |q| <= |r| <= |q| + 1 && r[..|q|] == q
    ensures NoDup(q) ==> NoDup(r)
  {
    if c in q then q else q + [c]
  }

  /** One candidate handed back by the region job: queued only when not yet classified. */
  function Admit(q: seq<Coord>, grid: Grid, c: Coord): seq<Coord> {
    if c in grid then q else AddUnique(q, c)
  }

  /** The queue after every candidate of cs has been admitted, in order. */
  function Enqueued(q: seq<Coord>, grid: Grid, cs: seq<Coord>): seq<Coord>
    decreases |cs|
  {
    if cs == [] then q else Admit(Enqueued(q, grid, cs[..|cs| - 1]), grid, cs[|cs| - 1])
  }

  /** Enqueueing keeps the queue duplicate-free, keeps what was queued in place, and adds
      exactly the candidates that are not yet in the grid. */
  lemma {:induction false} EnqueuedProperties(q: seq<Coord>, grid: Grid, cs: seq<Coord>)
    ensures NoDup(q) ==> NoDup(Enqueued(q, grid, cs))
    ensures |q| <= |Enqueued(q, grid, cs)| && Enqueued(q, grid, cs)[..|q|] == q
    ensures forall d :: d in Enqueued(q, grid, cs) <==> d in q || (d in cs && d !in grid)
    decreases |cs|
  {
    if cs != [] {
      var init := cs[..|cs| - 1];
      EnqueuedProperties(q, grid, init);
      assert cs == init + [cs[|cs| - 1]];
      var e := Enqueued(q, grid, init);
      assert Enqueued(q, grid, cs)[..|e|] == e;
      assert Enqueued(q, grid, cs)[..|q|] == e[..|q|];
    }
  }

  // ---------------------------------------------------------------------------------------
  // Dispatching

  /** A popped coordinate is probed when it is still unclassified and its cell centre passes
      the bounds test (the plugins' bounds test accepts everything). */
  predicate Dispatchable(grid: Grid, inBounds: Vec3 -> bool, s: real, c: Coord) {
    c !in grid && inBounds(GridToWorld(c, s))
  }

  /** The dispatchable coordinates of cs, in order. */
  function DispatchableOf(cs: seq<Coord>, grid: Grid, inBounds: Vec3 -> bool, s: real): (r: seq<Coord>)
    ensures forall d :: d in r <==> d in cs && Dispatchable(grid, inBounds, s, d)
    ensures |r| <= |cs|
    decreases |cs|
  {
    if cs == [] then []
    else (if Dispatchable(grid, inBounds, s, cs[0]) then [cs[0]] else [])
         + DispatchableOf(cs[1..], grid, inBounds, s)
  }

  /** What one call of the dispatcher leaves in the queue and what it probes. */
  datatype Drained = Drained(rest: seq<Coord>, sent: seq<Coord>)

  /** The dispatcher loop as a function: pop from the back while the queue is not empty and
      fewer than budget probes were issued; skipped coordinates do not use the budget. */
  function Drain(q: seq<Coord>, grid: Grid, inBounds: Vec3 -> bool, s: real, budget: int): Drained
    decreases |q|
  {
    if |q| == 0 || budget <= 0 then Drained(q, [])
    else
      var c, init := q[|q| - 1], q[..|q| - 1];
      if !Dispatchable(grid, inBounds, s, c) then Drain(init, grid, inBounds, s, budget)
      else var d := Drain(init, grid, inBounds, s, budget - 1); Drained(d.rest, [c] + d.sent)
  }

  function Max0(n: int): nat {
    if n < 0 then 0 else n
  }

  /** One drain pops a suffix of the queue and probes, most recent first, exactly the
      dispatchable coordinates of that suffix; it issues at most budget probes, stops early
      only when the queue is empty, and once the budget is used up the last coordinate it
      popped is one it probed, so nothing is popped after the cap is reached. */
  lemma {:induction false} DrainIsLifoBatch(q: seq<Coord>, grid: Grid, inBounds: Vec3 -> bool, s: real, budget: int)
    ensures var d := Drain(q, grid, inBounds, s, budget);
      |d.rest| <= |q| && d.rest == q[..|d.rest|]
      && d.sent == DispatchableOf(Reversed(q[|d.rest|..]), grid, inBounds, s)
      && |d.sent| <= Max0(budget)
      && (d.rest != [] ==> |d.sent| == Max0(budget))
      && (|d.rest| < |q| && |d.sent| == Max0(budget) ==> Dispatchable(grid, inBounds, s, q[|d.rest|]))
    decreases |q|
  {
    if |q| == 0 || budget <= 0 {
      assert q[|q|..] == [];
    } else {
      var c, init := q[|q| - 1], q[..|q| - 1];
      var disp := Dispatchable(grid, inBounds, s, c);
      var b := if disp then budget - 1 else budget;
      DrainIsLifoBatch(init, grid, inBounds, s, b);
      var d := Drain(init, grid, inBounds, s, b);
      var whole := Drain(q, grid, inBounds, s, budget);
      assert whole.rest == d.rest;
      assert whole.sent == (if disp then [c] else []) + d.sent;
      var k := |d.rest|;
      SuffixOfFront(q, k);
      ReversedSnoc(init[k..], c);
      var popped := Reversed(q[k..]);
      assert popped == [c] + Reversed(init[k..]);
      assert popped[1..] == Reversed(init[k..]);
      assert DispatchableOf(popped, grid, inBounds, s)
          == (if disp then [c] else []) + DispatchableOf(Reversed(init[k..]), grid, inBounds, s);
    }
  }

  /** The table entries a list of probes adds: each handle maps to its coordinate. */
  function ProbeTable(probes: seq<Probe>): map<Handle, Coord>
    decreases |probes|
  {
    if probes == [] then map[]
    else ProbeTable(probes[..|probes| - 1])[probes[|probes| - 1].handle := probes[|probes| - 1].coord]
  }

  /** A run of probes with consecutive handles from base tabulates as: exactly the handles
      base .. base + |probes| - 1, each mapped to its own probe's coordinate. */
  lemma {:induction false} ProbeTableOfRun(probes: seq<Probe>, base: Handle)
    requires forall i :: 0 <= i < |probes| ==> probes[i].handle == base + i
    ensures forall h :: h in ProbeTable(probes) <==> base <= h < base + |probes|
    ensures forall i :: 0 <= i < |probes| ==> ProbeTable(probes)[probes[i].handle] == probes[i].coord
    decreases |probes|
  {
    if probes != [] {
      var init := probes[..|probes| - 1];
      ProbeTableOfRun(init, base);
    }
  }

  /** After a dispatch from base, the pending table maps every new probe's handle to its
      coordinate, whatever it held before. */
  lemma PendingAfterRun(pending: map<Handle, Coord>, probes: seq<Probe>, base: Handle)
    requires forall i :: 0 <= i < |probes| ==> probes[i].handle == base + i
    ensures forall i :: 0 <= i < |probes| ==>
      probes[i].handle in pending + ProbeTable(probes) && (pending + ProbeTable(probes))[probes[i].handle] == probes[i].coord
  {
    ProbeTableOfRun(probes, base);
  }

  /** The coordinates of a list of probes. */
  function CoordsOf(probes: seq<Probe>): (r: seq<Coord>)
    ensures |r| == |probes| && forall i :: 0 <= i < |r| ==> r[i] == probes[i].coord
  {
    seq(|probes|, i requires 0 <= i < |probes| => probes[i].coord)
  }

  /** The dispatcher's progress: what was already probed followed by what a drain of the rest
      will probe. */
  function Resume(sent: seq<Coord>, d: Drained): Drained {
    Drained(d.rest, sent + d.sent)
  }

  /** One pop of the dispatcher loop keeps the whole drain equal to the drain resumed from there. */
  lemma DrainStep(q0: seq<Coord>, q: seq<Coord>, grid: Grid, inBounds: Vec3 -> bool, s: real, cap: int, sent: seq<Coord>)
    requires |q| > 0 && |sent| < cap
    requires Drain(q0, grid, inBounds, s, cap) == Resume(sent, Drain(q, grid, inBounds, s, cap - |sent|))
    ensures var c, init := q[|q| - 1], q[..|q| - 1];
      var sent' := if Dispatchable(grid, inBounds, s, c) then sent + [c] else sent;
      Drain(q0, grid, inBounds, s, cap) == Resume(sent', Drain(init, grid, inBounds, s, cap - |sent'|))
  {
    var c, init := q[|q| - 1], q[..|q| - 1];
    if Dispatchable(grid, inBounds, s, c) {
      var d := Drain(init, grid, inBounds, s, cap - |sent| - 1);
      assert Drain(q, grid, inBounds, s, cap - |sent|) == Drained(d.rest, [c] + d.sent);
      assert sent + ([c] + d.sent) == (sent + [c]) + d.sent;
    }
  }

  lemma ProbeListSnoc(probes: seq<Probe>, p: Probe)
    ensures ProbeTable(probes + [p]) == ProbeTable(probes)[p.handle := p.coord]
    ensures CoordsOf(probes + [p]) == CoordsOf(probes) + [p.coord]
  {
    assert (probes + [p])[..|probes|] == probes;
  }

  lemma MapUnionUpdate(m1: map<Handle, Coord>, m2: map<Handle, Coord>, k: Handle, v: Coord)
    ensures (m1 + m2)[k := v] == m1 + m2[k := v]
  {
  }

  // ---------------------------------------------------------------------------------------
  // The generator state

  class VoxelGenerator {
    /** VoxelSize, fixed from the settings at initialisation. */
    const voxelSize: real
    /** MaxRequestsPerTick (MaxPhysicsRequestsPerFrame for the test actor). */
    const maxRequestsPerTick: int

    /** VoxelGrid / VoxelCache. */
    var grid: Grid
    /** GenerationQueue. */
    var queue: seq<Coord>
    /** PendingTraceHandle(s). */
    var pending: map<Handle, Coord>
    /** The probe oracle's next handle: every handle it has issued is below it. */
    var nextHandle: Handle

    ghost predicate Valid()
      reads this
    {
      voxelSize > 0.0
      && Classified(grid)
      && NoDup(queue)
      && (forall h :: h in pending ==> h < nextHandle)
    }

    constructor (voxelSize: real, maxRequestsPerTick: int)
      requires voxelSize > 0.0
      ensures Valid()
      ensures this.voxelSize == voxelSize && this.maxRequestsPerTick == maxRequestsPerTick
      ensures grid == map[] && queue == [] && pending == map[] && nextHandle == 0
    {
      this.voxelSize := voxelSize;
      this.maxRequestsPerTick := maxRequestsPerTick;
      grid := map[];
      queue := [];
      pending := map[];
      nextHandle := 0;
    }

    /** The game-thread callback of a region request: admit each candidate in turn. */
    method EnqueueCandidates(candidates: seq<Coord>)
      requires Valid()
      modifies this
      ensures Valid()
      ensures queue == Enqueued(old(queue), grid, candidates)
      ensures grid == old(grid) && pending == old(pending) && nextHandle == old(nextHandle)
    {
      var i := 0;
      while i < |candidates|
        invariant 0 <= i <= |candidates|
        invariant Valid()
        invariant grid == old(grid) && pending == old(pending) && nextHandle == old(nextHandle)
        invariant queue == Enqueued(old(queue), grid, candidates[..i])
      {
        var c := candidates[i];
        if c !in grid {
          queue := AddUnique(queue, c);
        }
        assert candidates[..i + 1][..i] == candidates[..i];
        i := i + 1;
      }
      assert candidates[..i] == candidates;
    }

    /** RequestRegionAsyn / RequestRegionAsynTick / RequestRegionAsync: expand the region,
        then admit its candidates to the queue. */
    method RequestRegion(center: Vec3, radius: real, test: InclusionTest)
      requires Valid()
      modifies this
      ensures Valid()
      ensures grid == old(grid) && pending == old(pending) && nextHandle == old(nextHandle)
      ensures queue == Enqueued(old(queue), grid, Region(WorldToGrid(center, voxelSize), GridRadius(radius, voxelSize), test))
      ensures |old(queue)| <= |queue| && queue[..|old(queue)|] == old(queue)
      ensures forall c :: c in queue <==>
        (c in old(queue) || (c !in grid && Selected(WorldToGrid(center, voxelSize), GridRadius(radius, voxelSize), test, c)))
    {
      var candidates := ExpandRegion(center, radius, voxelSize, test);
      EnqueueCandidates(candidates);
      EnqueuedProperties(old(queue), grid, candidates);
    }

    /** ProcessQueue / ProcessQueueTick: pop from the back, skip what is classified or out of
        bounds, probe the rest with fresh handles, until the queue is empty or the per-tick
        cap is reached. */
    method ProcessQueue(inBounds: Vec3 -> bool) returns (probes: seq<Probe>)
      requires Valid()
      modifies this
      ensures Valid()
      ensures grid == old(grid)
      ensures Drain(old(queue), grid, inBounds, voxelSize, maxRequestsPerTick) == Drained(queue, CoordsOf(probes))
      ensures nextHandle == old(nextHandle) + |probes|
      ensures forall i :: 0 <= i < |probes| ==>
        probes[i].handle == old(nextHandle) + i && probes[i].center == GridToWorld(probes[i].coord, voxelSize)
      ensures pending == old(pending) + ProbeTable(probes)
    {
      var q, table, next := queue, pending, nextHandle;
      probes := [];
      var sentCount := 0;
      while |q| > 0 && sentCount < maxRequestsPerTick
        modifies {}
        invariant NoDup(q)
        invariant sentCount == |probes|
        invariant next == nextHandle + |probes|
        invariant forall h :: h in table ==> h < next
        invariant forall i :: 0 <= i < |probes| ==>
          probes[i].handle == nextHandle + i && probes[i].center == GridToWorld(probes[i].coord, voxelSize)
        invariant table == pending + ProbeTable(probes)
        invariant Drain(queue, grid, inBounds, voxelSize, maxRequestsPerTick)
          == Resume(CoordsOf(probes), Drain(q, grid, inBounds, voxelSize, maxRequestsPerTick - sentCount))
        decreases |q|
      {
        ghost var before := q;
        var current := q[|q| - 1];
        q := q[..|q| - 1];
        NoDupFront(before);
        DrainStep(queue, before, grid, inBounds, voxelSize, maxRequestsPerTick, CoordsOf(probes));
        if current !in grid {
          var worldPos := GridToWorld(current, voxelSize);
          if inBounds(worldPos) {
            // the probe oracle hands out a fresh handle
            var handle := next;
            next := next + 1;
            table := table[handle := current];
            ghost var earlier := probes;
            var probe := Probe(handle, current, worldPos);
            probes := probes + [probe];
            sentCount := sentCount + 1;
            ProbeListSnoc(earlier, probe);
            MapUnionUpdate(pending, ProbeTable(earlier), handle, current);
          }
        }
      }
      queue, pending, nextHandle := q, table, next;
    }

    /** OnTraceCompleted / OnTraceCompletedTick / OnOverlapCompleted: an unknown handle is
        ignored; a known one leaves the table and its coordinate is committed as Blocked when
        the probe overlapped something and Free otherwise. */
    method OnTraceCompleted(handle: Handle, overlaps: nat) returns (event: Option<Classification>)
      requires Valid()
      modifies this
      ensures Valid()
      ensures queue == old(queue) && nextHandle == old(nextHandle)
      ensures handle !in old(pending) ==> grid == old(grid) && pending == old(pending) && event == None
      ensures handle in old(pending) ==>
        var c := old(pending)[handle];
        pending == old(pending) - {handle}
        && grid == old(grid)[c := VoxelData(Classify(overlaps))]
        && event == Some(Classification(c, Classify(overlaps)))
    {
      event := None;
      if handle in pending {
        var c := pending[handle];
        pending := pending - {handle};
        var hit := overlaps > 0;
        var info := DefaultVoxelData;
        if hit {
          info := VoxelData(Blocked);
        } else {
          info := VoxelData(Free);
        }
        grid := grid[c := info];
        event := Some(Classification(c, info.state));
      }
    }
  }
}
