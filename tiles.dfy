/** Map dimensions fixed by the scene's `init`, and the conversion between
    tile coordinates and world (pixel) coordinates. */
module Tiles {
  /** Side of a square tile in world pixels (`TILESIZE`). */
  const TileSize: int := 16
  /** Width of the map in tiles (`TILEWIDTH`). */
  const TileWidth: nat := 40
  /** Height of the map in tiles (`TILEHEIGHT`). */
  const TileHeight: nat := 25

  /** World x coordinate of the left edge of tile column `tileX`. */
  function TileXToWorld(tileX: int): (w: int)
    ensures w % TileSize == 0 && w / TileSize == tileX
  {
    tileX * TileSize
  }

  /** World y coordinate of the top edge of tile row `tileY`. */
  function TileYToWorld(tileY: int): (w: int)
    ensures w % TileSize == 0 && w / TileSize == tileY
  {
    tileY * TileSize
  }

  /** The tile holding an integer world coordinate, `Math.floor(w / TILESIZE)`,
      which is how the scene finds the tile under the active character.  For a
      positive divisor Dafny's `/` is floor division, negative `w` included. */
  function WorldToTile(w: int): (t: int)
    ensures t * TileSize <= w < (t + 1) * TileSize
  {
    w / TileSize
  }

  /** Both scalings are strictly increasing. */
  lemma TileToWorldStrictlyMonotone(a: int, b: int)
    requires a < b
    ensures TileXToWorld(a) < TileXToWorld(b)
    ensures TileYToWorld(a) < TileYToWorld(b)
  {
  }

  /** Converting a tile to world coordinates and back gives the same tile. */
  lemma WorldToTileInvertsScaling(t: int)
    ensures WorldToTile(TileXToWorld(t)) == t
    ensures WorldToTile(TileYToWorld(t)) == t
  {
  }

  /** Every world coordinate lies inside the tile `WorldToTile` names:
      between its edge and the edge of the next tile. */
  lemma WorldToTileBrackets(w: int)
    ensures TileXToWorld(WorldToTile(w)) <= w < TileXToWorld(WorldToTile(w) + 1)
  {
  }
}
