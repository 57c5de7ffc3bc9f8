/** The tile-cost table of the path finder and the two passes over a tileset
    that rewrite it: `setCost` (low cost for the tiles that carry a cost) and
    `resetCost` (cost 1 again), plus the C-key toggle between them. */
module Costs {
  import opened Wrappers

  /** The custom properties of one tileset tile; `cost` is `None` when the
      property is null or undefined. */
  datatype TileProps = TileProps(cost: Option<int>)

  /** A tileset: its first global tile id, its tile count, and the properties
      `getTileProperties` finds per id (an id without an entry gives null). */
  datatype Tileset = Tileset(firstgid: int, total: int, props: map<int, TileProps>)

  /** `getTileProperties(tileID)`. */
  function TileProperties(ts: Tileset, tileID: int): Option<TileProps>
  {
    if tileID in ts.props then Some(ts.props[tileID]) else None
  }

  /** `props && props.cost` is truthy: there are properties and the cost is a
      number other than 0. */
  predicate HasTruthyCost(ts: Tileset, tileID: int)
  {
    tileID in ts.props && ts.props[tileID].cost.Some? && ts.props[tileID].cost.value != 0
  }

  /** `props != null && props.cost != null`. */
  predicate HasCost(ts: Tileset, tileID: int)
  {
    tileID in ts.props && ts.props[tileID].cost.Some?
  }

  /** The two passes over the tileset. */
  datatype CostPass = SetPass | ResetPass

  /** Whether a pass writes the entry of `tileID` (the loop's own bounds aside). */
  predicate Selects(pass: CostPass, ts: Tileset, tileID: int)
  {
    match pass
    case SetPass => HasTruthyCost(ts, tileID)
    case ResetPass => HasCost(ts, tileID)
  }

  /** The cost a pass writes for a tile it selects. */
  function WrittenCost(pass: CostPass, ts: Tileset, tileID: int): int
    requires Selects(pass, ts, tileID)
  {
    match pass
    case SetPass => ts.props[tileID].cost.value
    case ResetPass => 1
  }

  /** The ids in `[firstgid, hi)` that a pass writes. */
  function WrittenIds(pass: CostPass, ts: Tileset, hi: int): set<int>
  {
    set tileID | ts.firstgid <= tileID < hi && Selects(pass, ts, tileID)
  }

  /** The table after a pass has visited the ids `[firstgid, hi)`: written ids
      hold their written cost, every other entry is as before. */
  function AppliedBelow(costs: map<int, int>, pass: CostPass, ts: Tileset, hi: int): map<int, int>
  {
    var written := WrittenIds(pass, ts, hi);
    map tileID | tileID in costs.Keys + written ::
      if tileID in written then WrittenCost(pass, ts, tileID) else costs[tileID]
  }

  /** The entry of `tileID` is the same in both tables (present in both with
      the same cost, or absent from both). */
  predicate SameEntry(before: map<int, int>, after: map<int, int>, tileID: int)
  {
    (tileID in after <==> tileID in before) && (tileID in before ==> after[tileID] == before[tileID])
  }

  /** The table after `setCost`. The loop runs up to `total`, not up to
      `firstgid + total`. */
  function SetCostTable(costs: map<int, int>, ts: Tileset): (r: map<int, int>)
    ensures forall tileID :: ts.firstgid <= tileID < ts.total && HasTruthyCost(ts, tileID) ==>
              tileID in r && r[tileID] == ts.props[tileID].cost.value
    ensures forall tileID :: !(ts.firstgid <= tileID < ts.total && HasTruthyCost(ts, tileID)) ==>
              SameEntry(costs, r, tileID)
  {
    AppliedBelow(costs, SetPass, ts, ts.total)
  }

  /** The table after `resetCost`. */
  function ResetCostTable(costs: map<int, int>, ts: Tileset): (r: map<int, int>)
    ensures forall tileID :: ts.firstgid <= tileID < ts.total && HasCost(ts, tileID) ==>
              tileID in r && r[tileID] == 1
    ensures forall tileID :: !(ts.firstgid <= tileID < ts.total && HasCost(ts, tileID)) ==>
              SameEntry(costs, r, tileID)
  {
    AppliedBelow(costs, ResetPass, ts, ts.total)
  }

  /** Before the first id, a pass has changed nothing. */
  lemma AppliedBelowStart(costs: map<int, int>, pass: CostPass, ts: Tileset, hi: int)
    requires hi <= ts.firstgid
    ensures AppliedBelow(costs, pass, ts, hi) == costs
  {
    assert WrittenIds(pass, ts, hi) == {};
  }

  /** Visiting one more id writes that id's entry when the pass selects it. */
  lemma AppliedBelowStep(costs: map<int, int>, pass: CostPass, ts: Tileset, hi: int)
    requires ts.firstgid <= hi
    ensures AppliedBelow(costs, pass, ts, hi + 1) ==
              if Selects(pass, ts, hi)
              then AppliedBelow(costs, pass, ts, hi)[hi := WrittenCost(pass, ts, hi)]
              else AppliedBelow(costs, pass, ts, hi)
  {
    var before := WrittenIds(pass, ts, hi);
    var after := WrittenIds(pass, ts, hi + 1);
    assert after == if Selects(pass, ts, hi) then before + {hi} else before;
  }

  /** A reset after a reset changes nothing. */
  lemma ResetCostIdempotent(costs: map<int, int>, ts: Tileset)
    ensures ResetCostTable(ResetCostTable(costs, ts), ts) == ResetCostTable(costs, ts)
  {
    var once := ResetCostTable(costs, ts);
    var twice := ResetCostTable(once, ts);
    forall tileID
      ensures SameEntry(once, twice, tileID)
    {
      if ts.firstgid <= tileID < ts.total && HasCost(ts, tileID) {
      } else {
        assert SameEntry(once, twice, tileID);
      }
    }
  }

  /** Every tile `setCost` writes, `resetCost` writes too, so a reset wipes out
      whatever the set pass did: the result is that of the reset alone. */
  lemma ResetUndoesSetCost(costs: map<int, int>, ts: Tileset)
    ensures ResetCostTable(SetCostTable(costs, ts), ts) == ResetCostTable(costs, ts)
  {
    var set1 := SetCostTable(costs, ts);
    var lhs := ResetCostTable(set1, ts);
    var rhs := ResetCostTable(costs, ts);
    forall tileID
      ensures SameEntry(rhs, lhs, tileID)
    {
      if ts.firstgid <= tileID < ts.total && HasCost(ts, tileID) {
      } else {
        assert !HasTruthyCost(ts, tileID) || !(ts.firstgid <= tileID < ts.total);
        assert SameEntry(costs, set1, tileID);
      }
    }
  }

  /** The two passes select differently: a tile whose cost is 0 is skipped by
      `setCost` (0 is falsy) but reset to 1 by `resetCost`. */
  lemma ZeroCostSelectedOnlyByReset()
    ensures var ts := Tileset(1, 3, map[1 := TileProps(Some(0)), 2 := TileProps(None)]);
            && SetCostTable(map[], ts) == map[]
            && ResetCostTable(map[], ts) == map[1 := 1]
  {
    var ts := Tileset(1, 3, map[1 := TileProps(Some(0)), 2 := TileProps(None)]);
    assert WrittenIds(SetPass, ts, 3) == {} by {
      assert !Selects(SetPass, ts, 1) && !Selects(SetPass, ts, 2);
    }
    assert WrittenIds(ResetPass, ts, 3) == {1} by {
      assert Selects(ResetPass, ts, 1) && !Selects(ResetPass, ts, 2);
    }
  }

  /** Because the loop bound is `total` rather than `firstgid + total`, the
      last tile of a tileset that starts at id 1 is never visited: here tile 2
      keeps no cost although its property says 7. */
  lemma LastTileOfTilesetSkipped()
    ensures var ts := Tileset(1, 2, map[1 := TileProps(Some(5)), 2 := TileProps(Some(7))]);
            SetCostTable(map[], ts) == map[1 := 5]
  {
    var ts := Tileset(1, 2, map[1 := TileProps(Some(5)), 2 := TileProps(Some(7))]);
    assert WrittenIds(SetPass, ts, 2) == {1} by {
      assert Selects(SetPass, ts, 1);
    }
  }

  /** `setCost` skips every tile whose cost is 0, while `resetCost` writes 1
      for it, whatever the table held. */
  lemma ZeroCostSkippedBySetResetToOne(costs: map<int, int>, ts: Tileset, tileID: int)
    requires ts.firstgid <= tileID < ts.total
    requires tileID in ts.props && ts.props[tileID].cost == Some(0)
    ensures SameEntry(costs, SetCostTable(costs, ts), tileID)
    ensures tileID in ResetCostTable(costs, ts) && ResetCostTable(costs, ts)[tileID] == 1
  {
  }

  /** The ids from `total` up to `firstgid + total` belong to the tileset but
      lie past the loop bound: neither pass changes their entries. */
  lemma TilesPastTotalNeverVisited(costs: map<int, int>, ts: Tileset, tileID: int)
    requires ts.total <= tileID < ts.firstgid + ts.total
    ensures SameEntry(costs, SetCostTable(costs, ts), tileID)
    ensures SameEntry(costs, ResetCostTable(costs, ts), tileID)
  {
  }

  /** The state the C key toggles: the `lowCost` flag and the cost table. */
  datatype CostState = CostState(lowCost: bool, costs: map<int, int>)

  /** One C press: without low cost, apply `setCost` and turn it on; with low
      cost, apply `resetCost` and turn it off. */
  function Toggle(s: CostState, ts: Tileset): (r: CostState)
    ensures r.lowCost == !s.lowCost
  {
    if !s.lowCost then CostState(true, SetCostTable(s.costs, ts))
    else CostState(false, ResetCostTable(s.costs, ts))
  }

  /** The state after `n` presses. */
  function Presses(s: CostState, ts: Tileset, n: nat): CostState
  {
    if n == 0 then s else Toggle(Presses(s, ts, n - 1), ts)
  }

  /** Two presses from the initial regime leave the regime off and the table
      as a single reset would. */
  lemma TwoPressesReset(costs: map<int, int>, ts: Tileset)
    ensures Presses(CostState(false, costs), ts, 2) == CostState(false, ResetCostTable(costs, ts))
  {
    var s := CostState(false, costs);
    assert Presses(s, ts, 1) == CostState(true, SetCostTable(costs, ts));
    ResetUndoesSetCost(costs, ts);
  }

  /** From the initial regime onward, after the first two presses the state
      alternates between exactly two values: pressing twice more returns it. */
  lemma {:induction false} PressesPeriodic(costs: map<int, int>, ts: Tileset, n: nat)
    requires n >= 2
    ensures Presses(CostState(false, costs), ts, n + 2) == Presses(CostState(false, costs), ts, n)
  {
    var s := CostState(false, costs);
    if n == 2 {
      TwoPressesReset(costs, ts);
      var r := ResetCostTable(costs, ts);
      assert Presses(s, ts, 4) == Toggle(Toggle(CostState(false, r), ts), ts);
      ResetUndoesSetCost(r, ts);
      ResetCostIdempotent(costs, ts);
    } else {
      PressesPeriodic(costs, ts, n - 1);
    }
  }
}
