# Pathfinder scene: grid compositing, tile costs and walk construction

A Dafny model of the original logic of the path-planning scene `Pathfinder`
(`z3-web-browser-copy/src/Scenes/Pathfinder.js`) of a Phaser demo. The scene builds a walking grid from
three tile layers, hands it to the EasyStar path finder together with a list
of walkable tile indices, switches the finder's tile costs between a
low-cost regime and uniform cost 1 when the C key is pressed, and turns a path
the finder returns into a chain of tweens that walks the character along it.

Modules (one file each):

- `Wrappers` (`wrappers.dfy`): `Option`.
- `Tiles` (`tiles.dfy`): the constants of `init` (`TILESIZE` 16,
  `TILEWIDTH` 40, `TILEHEIGHT` 25), `tileXtoWorld`/`tileYtoWorld`, and the
  floor division back to tiles.
- `Grid` (`grid.dfy`): `layersToGrid` as a method with nested loops that push
  cells into rows and rows into the grid, proved against the precedence rule
  `IsComposite`; the `walkables` list.
- `Costs` (`costs.dfy`): the tileset and its properties as values, the cost
  table after `setCost` and after `resetCost` as functions, the C-key toggle
  as a function on (`lowCost`, table) and the lemmas relating them.
- `Tweens` (`tweens.dfy`): `moveCharacter`'s loop that builds the tween list.
- `Scene` (`scene.dfy`): the class `Pathfinder` with the mutable `lowCost` flag
  and the path finder's cost table as a `map` field; `SetCost` and `ResetCost`
  loop over tile ids writing the table, `Update` flips the flag.

Choices of representation:

- A layer is a total function `(x, y) -> Option<Tile>`, which is what
  `getTileAt` gives. `layersToGrid` is called with an array of layers but
  ignores it and reads the scene's three layer fields; the model passes the
  three layers as separate arguments.
- A tile's `cost` property is `Option<int>`, `None` standing for null or
  undefined. The truthiness test of `setCost` (`props && props.cost`) is
  "properties exist and the cost is not 0"; the test of `resetCost`
  (`props != null`, `props.cost != null`) is "properties exist and the cost is
  not null". The two differ for cost 0, and a lemma shows it.
- `setCost` and `resetCost` loop from `firstgid` up to `total`, not up to
  `firstgid + total`. The model keeps this bound, and a lemma shows that the
  last tile of a tileset starting at id 1 is never visited.
- The tile size of the map used by `moveCharacter` (`this.map.tileWidth`,
  `this.map.tileHeight`) comes from the loaded tilemap, so it is a parameter.
- Whether the C key went down this frame (`JustDown`) is a parameter of
  `Update`.
- `setCost` writes any truthy cost the property holds, negative ones
  included, and skips 0. Nothing checks the layers' sizes: the grid is always
  `TILEHEIGHT × TILEWIDTH`, and a layer that has no tile at a cell gives null
  there. The model does the same.

## Model

| member | source | states |
|---|---|---|
| Grid.Walkables | z3-web-browser-copy/src/Scenes/Pathfinder.js:74-77 | the 21 walkable tile indices handed to the path finder; a constant with no contract of its own (its relation to the grid markers is stated by `Grid.WalkableCellsAreOpenGround`) |
| Grid.LayersToGrid | z3-web-browser-copy/src/Scenes/Pathfinder.js:142-164 | the grid has exactly TILEHEIGHT rows of TILEWIDTH cells, and cell `grid[y][x]` is -1 when the trees or houses layer has a tile at (x, y) whatever the ground holds, otherwise the ground tile's index, otherwise 0 |
| Grid.CompositeIsUnique | z3-web-browser-copy/src/Scenes/Pathfinder.js:152-158 | the precedence rule determines every cell: two grids that both follow it for the same layers are equal |
| Grid.WalkableCellsAreOpenGround | z3-web-browser-copy/src/Scenes/Pathfinder.js:74-77 | neither -1 nor 0 is in the walkable list, so a composited cell is walkable if and only if no tree or house tile is on it and it has a ground tile whose index is walkable |
| Costs.TileProperties | z3-web-browser-copy/src/Scenes/Pathfinder.js:120 | `getTileProperties(tileID)`: the tile's properties, or none (null) when the tileset has no entry for the id; no contract of its own |
| Costs.HasTruthyCost | z3-web-browser-copy/src/Scenes/Pathfinder.js:221 | `props && props.cost` is truthy: the properties exist and the cost is present and not 0; no contract of its own |
| Costs.HasCost | z3-web-browser-copy/src/Scenes/Pathfinder.js:121-122 | `props != null` and `props.cost != null`: the properties exist and the cost is present, 0 included; no contract of its own |
| Costs.SetCostTable | z3-web-browser-copy/src/Scenes/Pathfinder.js:214-225 | ids in `[firstgid, total)` whose properties exist with a truthy (non-zero) cost hold that cost afterwards; every other entry, present or absent, is unchanged |
| Costs.ResetCostTable | z3-web-browser-copy/src/Scenes/Pathfinder.js:118-127 | ids in `[firstgid, total)` whose properties exist with a non-null cost hold 1 afterwards; every other entry is unchanged |
| Costs.AppliedBelowStep | z3-web-browser-copy/src/Scenes/Pathfinder.js:219-224 | visiting one more tile id adds exactly that id's write, if the pass selects it, to the table built so far |
| Costs.ResetCostIdempotent | z3-web-browser-copy/src/Scenes/Pathfinder.js:118-127 | resetting the costs twice gives the same table as resetting once |
| Costs.ResetUndoesSetCost | z3-web-browser-copy/src/Scenes/Pathfinder.js:102-127 | a reset after a set gives the same table as the reset alone: every tile the set pass writes is written back to 1 |
| Costs.ZeroCostSelectedOnlyByReset | z3-web-browser-copy/src/Scenes/Pathfinder.js:221 | a tile with cost 0 is skipped by setCost but reset to 1 by resetCost |
| Costs.LastTileOfTilesetSkipped | z3-web-browser-copy/src/Scenes/Pathfinder.js:219 | with `firstgid` 1 and `total` 2, the tile with id 2 gets no cost from setCost although its property holds one |
| Costs.ZeroCostSkippedBySetResetToOne | z3-web-browser-copy/src/Scenes/Pathfinder.js:121-122 | for every table and every id in `[firstgid, total)` whose cost is 0, setCost leaves its entry as it was and resetCost makes it 1 |
| Costs.TilesPastTotalNeverVisited | z3-web-browser-copy/src/Scenes/Pathfinder.js:219 | every id in `[total, firstgid + total)`, part of the tileset but past the loop bound, keeps its entry under both setCost and resetCost |
| Costs.Toggle | z3-web-browser-copy/src/Scenes/Pathfinder.js:102-116 | each C press flips `lowCost` |
| Costs.TwoPressesReset | z3-web-browser-copy/src/Scenes/Pathfinder.js:102-116 | two presses starting with `lowCost` off leave it off and the table equal to a single reset of the starting table |
| Costs.PressesPeriodic | z3-web-browser-copy/src/Scenes/Pathfinder.js:102-116 | starting with `lowCost` off, after at least two presses two further presses return to the same flag and table |
| Scene.Pathfinder.constructor | z3-web-browser-copy/src/Scenes/Pathfinder.js:67-99 | the scene hands the path finder the composite of its three layers and the walkable list, starts with `lowCost` off and an empty cost table |
| Scene.Pathfinder.SetCost | z3-web-browser-copy/src/Scenes/Pathfinder.js:214-225 | the loop over tile ids leaves the cost table equal to `SetCostTable` of the old table |
| Scene.Pathfinder.ResetCost | z3-web-browser-copy/src/Scenes/Pathfinder.js:118-127 | the loop over tile ids leaves the cost table equal to `ResetCostTable` of the old table |
| Scene.Pathfinder.Update | z3-web-browser-copy/src/Scenes/Pathfinder.js:102-116 | without a C press nothing changes; a press with `lowCost` off applies setCost and turns it on; a press with `lowCost` on applies resetCost and turns it off |
| Tweens.MoveCharacter | z3-web-browser-copy/src/Scenes/Pathfinder.js:191-208 | the path gives max(0, length - 1) tweens; tween i targets waypoint i + 1 scaled by the tile width and height, with duration 200, so the first waypoint is never a target and the order is the path's |
| Tweens.WalkRetracesPath | z3-web-browser-copy/src/Scenes/Pathfinder.js:193-202 | with 16-pixel tiles each tween ends on the world position of its waypoint, the tile under that position is the waypoint again, and the last tween ends on the path's goal |
| Tweens.WalkDuration | z3-web-browser-copy/src/Scenes/Pathfinder.js:197-201 | the first k tweens of the chain last k times 200 milliseconds |
| Tiles.TileXToWorld | z3-web-browser-copy/src/Scenes/Pathfinder.js:129-131 | `tileX * TILESIZE`: a world x coordinate on a tile edge (a multiple of 16) from which dividing by 16 gives back `tileX` |
| Tiles.TileYToWorld | z3-web-browser-copy/src/Scenes/Pathfinder.js:133-135 | `tileY * TILESIZE`: a world y coordinate on a tile edge (a multiple of 16) from which dividing by 16 gives back `tileY` |
| Tiles.WorldToTile | z3-web-browser-copy/src/Scenes/Pathfinder.js:172-173 | `Math.floor(w / TILESIZE)` for an integer world coordinate: the tile t with `16 t <= w < 16 (t + 1)` |
| Tiles.TileToWorldStrictlyMonotone | z3-web-browser-copy/src/Scenes/Pathfinder.js:129-135 | tileXtoWorld and tileYtoWorld are strictly increasing |
| Tiles.WorldToTileInvertsScaling | z3-web-browser-copy/src/Scenes/Pathfinder.js:129-135 | `Math.floor(tileXtoWorld(t) / TILESIZE)` is t again, and likewise for y |
| Tiles.WorldToTileBrackets | z3-web-browser-copy/src/Scenes/Pathfinder.js:172-173 | a world coordinate lies between the edge of the tile that floor division names and the edge of the next tile |

## Left out

- The shortest-path search and its callback protocol (`findPath`, `calculate`): they belong to the EasyStar library, which is not part of this model; no optimality is claimed.
- `handleClick`'s conversion of pointer coordinates: it divides by the floating-point `SCALE` (2.0); only the integer floor division by `TILESIZE` is modelled, as the inverse of the tile-to-world scaling.
- The Phaser scene lifecycle, tilemap and tileset loading, layer creation, camera, sprite creation, and playing the tween chain (`this.tweens.chain`): engine and rendering calls. `moveCharacter` is modelled up to the list of tweens it hands over.
- The console messages of `update` and `handleClick`: output only.
- JavaScript numbers are doubles; the model uses unbounded integers for tile ids, indices, coordinates and costs, and does not model NaN or non-numeric cost properties (both falsy or odd under `props.cost`).
- `getTileProperties` is modelled as a lookup by tile id in the tileset's property map; Phaser's own offsetting of ids by `firstgid` is not part of this model.
- The SMT constraint demos (`kidsGameDemo.js`, `fences.js`, `z3-web-browser-copy/main.js`) and the build and bootstrap configuration: they call an external solver with fixed constraints or configure the game, with no algorithm of their own.
