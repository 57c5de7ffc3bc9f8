/** Turning a path found by the path finder into the chain of tweens that
    walks the character along it. */
module Tweens {
  import opened Tiles

  /** A path element: a tile coordinate. */
  datatype Point = Point(x: int, y: int)

  /** One tween of the chain: the world position to move to and how long the
      move takes, in milliseconds. */
  datatype Tween = Tween(x: int, y: int, duration: int)

  /** Duration of every step of the walk. */
  const StepDuration: int := 200

  /** `tweens` walks `path`: one tween per step, in path order, tween `i`
      ending on the top-left corner of waypoint `i + 1`. The first waypoint,
      where the character already stands, is never a target. */
  ghost predicate IsWalk(path: seq<Point>, tweens: seq<Tween>, tileWidth: int, tileHeight: int)
  {
    && |tweens| == (if |path| == 0 then 0 else |path| - 1)
    && forall i :: 0 <= i < |tweens| ==>
         tweens[i] == Tween(path[i + 1].x * tileWidth, path[i + 1].y * tileHeight, StepDuration)
  }

  /** Builds the tween list for `path` on a map with the given tile size. */
  method MoveCharacter(path: seq<Point>, tileWidth: int, tileHeight: int) returns (tweens: seq<Tween>)
    ensures IsWalk(path, tweens, tileWidth, tileHeight)
  {
    tweens := [];
    var i := 0;
    while i < |path| - 1
      invariant 0 <= i
      invariant i <= |path| - 1 || i == 0
      invariant |tweens| == i
      invariant forall k :: 0 <= k < i ==>
                  tweens[k] == Tween(path[k + 1].x * tileWidth, path[k + 1].y * tileHeight, StepDuration)
    {
      var ex := path[i + 1].x;
      var ey := path[i + 1].y;
      tweens := tweens + [Tween(ex * tileWidth, ey * tileHeight, StepDuration)];
      i := i + 1;
    }
  }

  /** On a map whose tiles are `TileSize` square, each tween ends exactly on
      the world position of its waypoint, and the tile under that position is
      the waypoint again; so the walk retraces `path[1..]` in order and a path
      of two or more points ends on its goal. */
  lemma WalkRetracesPath(path: seq<Point>, tweens: seq<Tween>)
    requires IsWalk(path, tweens, TileSize, TileSize)
    ensures forall i :: 0 <= i < |tweens| ==>
              && tweens[i].x == TileXToWorld(path[i + 1].x) && tweens[i].y == TileYToWorld(path[i + 1].y)
              && WorldToTile(tweens[i].x) == path[i + 1].x && WorldToTile(tweens[i].y) == path[i + 1].y
    ensures |path| >= 2 ==>
              Point(WorldToTile(tweens[|tweens| - 1].x), WorldToTile(tweens[|tweens| - 1].y)) == path[|path| - 1]
  {
    forall i | 0 <= i < |tweens|
      ensures WorldToTile(tweens[i].x) == path[i + 1].x && WorldToTile(tweens[i].y) == path[i + 1].y
    {
      WorldToTileInvertsScaling(path[i + 1].x);
      WorldToTileInvertsScaling(path[i + 1].y);
    }
  }

  /** A walk takes `StepDuration` per step of the path and no more. */
  lemma {:induction false} WalkDuration(path: seq<Point>, tweens: seq<Tween>, tileWidth: int, tileHeight: int, k: nat)
    requires IsWalk(path, tweens, tileWidth, tileHeight)
    requires k <= |tweens|
    ensures TotalDuration(tweens[..k]) == k * StepDuration
  {
    if k > 0 {
      WalkDuration(path, tweens, tileWidth, tileHeight, k - 1);
      assert tweens[..k] == tweens[..k - 1] + [tweens[k - 1]];
      TotalDurationAppend(tweens[..k - 1], tweens[k - 1]);
    }
  }

  /** Sum of the durations of a tween chain. */
  function TotalDuration(tweens: seq<Tween>): int
  {
    if tweens == [] then 0 else TotalDuration(tweens[..|tweens| - 1]) + tweens[|tweens| - 1].duration
  }

  /** Appending a tween adds its duration to the total. */
  lemma TotalDurationAppend(tweens: seq<Tween>, t: Tween)
    ensures TotalDuration(tweens + [t]) == TotalDuration(tweens) + t.duration
  {
    assert (tweens + [t])[..|tweens|] == tweens;
  }
}
