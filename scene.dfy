/** The path-planning scene: the state it keeps between frames (the grid and
    walkable tiles given to the path finder, the path finder's tile-cost table
    and the `lowCost` flag) and the operations that change it. */
module Scene {
  import opened Grid
  import opened Costs

  class Pathfinder {
    /** The tileset of the map, whose tile properties carry the costs. */
    const tileset: Tileset
    /** The grid handed to the path finder (`setGrid`). */
    const grid: seq<seq<int>>
    /** The walkable tile indices handed to the path finder (`setAcceptableTiles`). */
    const acceptableTiles: seq<int>
    /** Whether the low-cost regime is on. */
    var lowCost: bool
    /** The path finder's tile-cost table (`setTileCost` writes it). */
    var tileCosts: map<int, int>

    /** The cost part of the state, as the toggle sees it. */
    function CostStateOf(): CostState
      reads this
    {
      CostState(lowCost, tileCosts)
    }

    /** The scene's set-up: composite the three layers, give the grid and the
        walkable tiles to a fresh path finder, start without low cost. */
    constructor (ground: Layer, trees: Layer, houses: Layer, tileset: Tileset)
      ensures IsComposite(grid, ground, trees, houses)
      ensures acceptableTiles == Walkables
      ensures this.tileset == tileset
      ensures !lowCost && tileCosts == map[]
    {
      var tinyTownGrid := LayersToGrid(ground, trees, houses);
      this.tileset := tileset;
      grid := tinyTownGrid;
      acceptableTiles := Walkables;
      tileCosts := map[];
      lowCost := false;
    }

    /** `setCost`: for every id in `[firstgid, total)` whose properties hold a
        truthy cost, write that cost into the table. */
    method SetCost(ts: Tileset)
      modifies this`tileCosts
      ensures tileCosts == SetCostTable(old(tileCosts), ts)
    {
      var tileID := ts.firstgid;
      AppliedBelowStart(tileCosts, SetPass, ts, tileID);
      while tileID < ts.total
        invariant ts.firstgid <= tileID
        invariant tileID <= ts.total || tileID == ts.firstgid
        invariant tileCosts == AppliedBelow(old(tileCosts), SetPass, ts, tileID)
      {
        AppliedBelowStep(old(tileCosts), SetPass, ts, tileID);
        var props := TileProperties(ts, tileID);
        if props.Some? && props.value.cost.Some? && props.value.cost.value != 0 {
          tileCosts := tileCosts[tileID := props.value.cost.value];
        }
        tileID := tileID + 1;
      }
      if tileID != ts.total {
        AppliedBelowStart(old(tileCosts), SetPass, ts, ts.total);
      }
    }

    /** `resetCost`: for every id in `[firstgid, total)` whose properties hold
        a non-null cost, write cost 1 into the table. */
    method ResetCost(ts: Tileset)
      modifies this`tileCosts
      ensures tileCosts == ResetCostTable(old(tileCosts), ts)
    {
      var tileID := ts.firstgid;
      AppliedBelowStart(tileCosts, ResetPass, ts, tileID);
      while tileID < ts.total
        invariant ts.firstgid <= tileID
        invariant tileID <= ts.total || tileID == ts.firstgid
        invariant tileCosts == AppliedBelow(old(tileCosts), ResetPass, ts, tileID)
      {
        AppliedBelowStep(old(tileCosts), ResetPass, ts, tileID);
        var props := TileProperties(ts, tileID);
        if props.Some? {
          if props.value.cost.Some? {
            tileCosts := tileCosts[tileID := 1];
          }
        }
        tileID := tileID + 1;
      }
      if tileID != ts.total {
        AppliedBelowStart(old(tileCosts), ResetPass, ts, ts.total);
      }
    }

    /** One frame: `cJustDown` says whether the C key went down this frame.
        A press flips `lowCost`, applying `setCost` when it was off and
        `resetCost` when it was on; without a press nothing changes. */
    method Update(cJustDown: bool)
      modifies this`lowCost, this`tileCosts
      ensures CostStateOf() == if cJustDown then Toggle(old(CostStateOf()), tileset) else old(CostStateOf())
      ensures !cJustDown ==> lowCost == old(lowCost) && tileCosts == old(tileCosts)
      ensures cJustDown && !old(lowCost) ==> lowCost && tileCosts == SetCostTable(old(tileCosts), tileset)
      ensures cJustDown && old(lowCost) ==> !lowCost && tileCosts == ResetCostTable(old(tileCosts), tileset)
    {
      if cJustDown {
        if !lowCost {
          SetCost(tileset);
          lowCost := true;
        } else {
          ResetCost(tileset);
          lowCost := false;
        }
      }
    }
  }
}
