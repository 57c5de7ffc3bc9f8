/** Compositing of the scene's three tile layers into the integer grid that is
    handed to the path finder. */
module Grid {
  import opened Wrappers
  import opened Tiles

  /** A tile of a layer; only its tileset index matters here. */
  datatype Tile = Tile(index: int)

  /** A tile layer, as `getTileAt(x, y)`: the tile at a coordinate, or none. */
  type Layer = (int, int) -> Option<Tile>

  /** Cell value for a tree or house tile: not walkable. */
  const Blocked: int := -1
  /** Cell value where no layer holds a tile. */
  const Empty: int := 0

  /** The tile indices the path finder is told it may walk on. */
  const Walkables: seq<int> :=
    [1, 2, 3, 30, 40, 41, 42, 43, 44, 95, 13, 14, 15, 25, 26, 27, 37, 38, 39, 70, 84]

  /** The precedence rule for one cell: a tree or house tile blocks the cell
      whatever the ground holds; otherwise a ground tile gives its index;
      otherwise the cell is empty. */
  ghost predicate CellFollowsPrecedence(v: int, ground: Layer, trees: Layer, houses: Layer, x: int, y: int)
  {
    if trees(x, y).Some? || houses(x, y).Some? then v == Blocked
    else if ground(x, y).Some? then v == ground(x, y).value.index
    else v == Empty
  }

  /** Row `y` of the grid: `TileWidth` cells, each following the rule. */
  ghost predicate RowIsComposite(row: seq<int>, y: int, ground: Layer, trees: Layer, houses: Layer)
  {
    && |row| == TileWidth
    && forall x :: 0 <= x < TileWidth ==> CellFollowsPrecedence(row[x], ground, trees, houses, x, y)
  }

  /** The grid is `TileHeight` rows, indexed `grid[y][x]`, each composite. */
  ghost predicate IsComposite(grid: seq<seq<int>>, ground: Layer, trees: Layer, houses: Layer)
  {
    && |grid| == TileHeight
    && forall y :: 0 <= y < TileHeight ==> RowIsComposite(grid[y], y, ground, trees, houses)
  }

  /** Builds the grid row by row, pushing one cell at a time. */
  method LayersToGrid(ground: Layer, trees: Layer, houses: Layer) returns (grid: seq<seq<int>>)
    ensures |grid| == TileHeight
    ensures forall y :: 0 <= y < |grid| ==> |grid[y]| == TileWidth
    ensures IsComposite(grid, ground, trees, houses)
  {
    grid := [];
    var y := 0;
    while y < TileHeight
      invariant 0 <= y <= TileHeight
      invariant |grid| == y
      invariant forall j :: 0 <= j < y ==> RowIsComposite(grid[j], j, ground, trees, houses)
    {
      var row := [];
      var x := 0;
      while x < TileWidth
        invariant 0 <= x <= TileWidth
        invariant |row| == x
        invariant forall i :: 0 <= i < x ==> CellFollowsPrecedence(row[i], ground, trees, houses, i, y)
      {
        var tile := ground(x, y);
        var treesTile := trees(x, y);
        var housesTile := houses(x, y);
        if treesTile.Some? || housesTile.Some? {
          row := row + [Blocked];
        } else if tile.Some? {
          row := row + [tile.value.index];
        } else {
          row := row + [Empty];
        }
        x := x + 1;
      }
      grid := grid + [row];
      y := y + 1;
    }
  }

  /** The precedence rule leaves no freedom: two composites of the same
      layers are the same grid. */
  lemma CompositeIsUnique(g1: seq<seq<int>>, g2: seq<seq<int>>, ground: Layer, trees: Layer, houses: Layer)
    requires IsComposite(g1, ground, trees, houses)
    requires IsComposite(g2, ground, trees, houses)
    ensures g1 == g2
  {
    forall y | 0 <= y < TileHeight
      ensures g1[y] == g2[y]
    {
      forall x | 0 <= x < TileWidth
        ensures g1[y][x] == g2[y][x]
      {
        assert CellFollowsPrecedence(g1[y][x], ground, trees, houses, x, y);
        assert CellFollowsPrecedence(g2[y][x], ground, trees, houses, x, y);
      }
    }
  }

  /** Neither marker written by the compositing is a walkable index, so a cell
      of the composite is walkable exactly when no tree or house tile stands
      on it and its ground tile's index is walkable. */
  lemma WalkableCellsAreOpenGround(grid: seq<seq<int>>, ground: Layer, trees: Layer, houses: Layer, x: int, y: int)
    requires IsComposite(grid, ground, trees, houses)
    requires 0 <= y < TileHeight && 0 <= x < TileWidth
    ensures Blocked !in Walkables && Empty !in Walkables
    ensures grid[y][x] in Walkables <==>
              && trees(x, y).None? && houses(x, y).None?
              && ground(x, y).Some? && ground(x, y).value.index in Walkables
  {
    assert RowIsComposite(grid[y], y, ground, trees, houses);
    assert CellFollowsPrecedence(grid[y][x], ground, trees, houses, x, y);
  }
}
