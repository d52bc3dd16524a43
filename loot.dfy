/**
 * The loot table: an ordered list of weighted prize definitions and the
 * weighted roll over it.  Weights are `float` in the game and `real` here, so
 * every statement below is about exact arithmetic.
 */
module Loot {
  import opened Common
  import opened Prizes
  import opened RandomSource

  /** `LootTable.Entry`.  `[Min(0f)]` is editor-only: the roll clamps weights itself. */
  datatype Entry = Entry(prize: PrizeDef, weight: real)

  /** `Mathf.Max(0f, weight)`. */
  function Clamped(w: real): (r: real)
    ensures r >= 0.0 && r >= w
    ensures w >= 0.0 ==> r == w
    ensures w <= 0.0 ==> r == 0.0
  {
    if w > 0.0 then w else 0.0
  }

  /** The clamped weights of the first `k` entries, summed in order. */
  function PrefixSum(es: seq<Entry>, k: nat): (t: real)
    requires k <= |es|
    ensures t >= 0.0
    decreases k
  {
    if k == 0 then 0.0 else PrefixSum(es, k - 1) + Clamped(es[k - 1].weight)
  }

  /** The value the first loop of `Roll` accumulates in `total`. */
  function Total(es: seq<Entry>): real
  {
    PrefixSum(es, |es|)
  }

  /** Whether a roll goes past its guards and takes a draw. */
  predicate CanDraw(es: seq<Entry>)
  {
    |es| > 0 && Total(es) > 0.0
  }

  /**
   * The second loop of `Roll`, from entry `i` on with the remaining `pick`:
   * the first entry whose clamped weight covers what is left of `pick`, each
   * entry passed over subtracting its weight; none if the entries run out.
   */
  function WalkFrom(es: seq<Entry>, i: nat, pick: real): (r: Option<nat>)
    requires i <= |es|
    ensures r.Some? ==> i <= r.value < |es|
    decreases |es| - i
  {
    if i == |es| then None
    else if pick <= Clamped(es[i].weight) then Some(i)
    else WalkFrom(es, i + 1, pick - Clamped(es[i].weight))
  }

  /** `(float)rng.NextDouble() * total`: the draw `u` scaled to the total weight. */
  function Pick(es: seq<Entry>, u: real): (pick: real)
    requires CanDraw(es) && 0.0 <= u < 1.0
    ensures 0.0 <= pick < Total(es)
  {
    ScaledDrawBelowTotal(u, Total(es), u * Total(es));
    u * Total(es)
  }

  /** The index `Roll` returns for the draw `u`, the last-entry fallback included. */
  function Choose(es: seq<Entry>, u: real): (i: nat)
    requires CanDraw(es) && 0.0 <= u < 1.0
    ensures i < |es|
  {
    match WalkFrom(es, 0, Pick(es, u))
    case Some(i) => i
    case None => |es| - 1
  }

  /**
   * `Roll(rng)` for a random source at position `pos` of `s`: the prize rolled
   * and the position afterwards.
   */
  function RollResult(es: seq<Entry>, s: Draws, pos: nat): (r: (Option<PrizeDef>, nat))
    // a draw is taken, and a prize returned, exactly when the table has positive total weight
    ensures r.0.Some? <==> CanDraw(es)
    ensures r.1 == if CanDraw(es) then pos + 1 else pos
    // the prize returned is the prize of one of the entries
    ensures r.0.Some? ==> exists i :: 0 <= i < |es| && es[i].prize == r.0.value
  {
    if CanDraw(es) then (Some(es[Choose(es, s(pos))].prize), pos + 1) else (None, pos)
  }

  /** An empty table, or one whose clamped weights sum to zero, rolls nothing. */
  lemma {:induction false} EmptyOrWeightlessRollsNothing(es: seq<Entry>, s: Draws, pos: nat)
    requires |es| == 0 || forall i :: 0 <= i < |es| ==> es[i].weight <= 0.0
    ensures RollResult(es, s, pos) == (None, pos)
  {
    if |es| > 0 {
      WeightlessTotal(es, |es|);
    }
  }

  lemma {:induction false} WeightlessTotal(es: seq<Entry>, k: nat)
    requires k <= |es|
    requires forall i :: 0 <= i < |es| ==> es[i].weight <= 0.0
    ensures PrefixSum(es, k) == 0.0
    decreases k
  {
    if k > 0 {
      WeightlessTotal(es, k - 1);
    }
  }

  lemma {:induction false} PrefixSumMonotone(es: seq<Entry>, j: nat, k: nat)
    requires j <= k <= |es|
    ensures PrefixSum(es, j) <= PrefixSum(es, k)
    decreases k
  {
    if j < k {
      PrefixSumMonotone(es, j, k - 1);
    }
  }

  /**
   * The walk from entry `i` with what is left of `pick` stops at the first
   * entry at or after `i` whose prefix sum reaches `pick`, and runs out exactly
   * when no prefix sum from there on does.
   */
  lemma {:induction false} WalkFindsFirstCovering(es: seq<Entry>, i: nat, pick: real)
    requires i <= |es|
    ensures var r := WalkFrom(es, i, pick - PrefixSum(es, i));
      && (r.Some? ==>
            && pick <= PrefixSum(es, r.value + 1)
            && forall j :: i < j <= r.value ==> pick > PrefixSum(es, j))
      && (r.None? ==> forall j :: i < j <= |es| ==> pick > PrefixSum(es, j))
    decreases |es| - i
  {
    if i < |es| {
      var w := Clamped(es[i].weight);
      assert PrefixSum(es, i + 1) == PrefixSum(es, i) + w;
      if pick - PrefixSum(es, i) > w {
        WalkFindsFirstCovering(es, i + 1, pick);
        assert pick - PrefixSum(es, i) - w == pick - PrefixSum(es, i + 1);
      }
    }
  }

  /** `WalkFindsFirstCovering` for the whole walk, from the first entry with all of `pick`. */
  lemma {:induction false} WalkFromStart(es: seq<Entry>, pick: real)
    ensures var r := WalkFrom(es, 0, pick);
      && (r.Some? ==>
            && pick <= PrefixSum(es, r.value + 1)
            && forall j :: 0 < j <= r.value ==> pick > PrefixSum(es, j))
      && (r.None? ==> forall j :: 0 < j <= |es| ==> pick > PrefixSum(es, j))
  {
    WalkFindsFirstCovering(es, 0, pick);
    assert pick - PrefixSum(es, 0) == pick;
  }

  /**
   * Which entry a roll chooses: entry `i` is chosen exactly when the scaled
   * draw lies in `(PrefixSum(i), PrefixSum(i + 1)]` (for the first entry, in
   * `[0, PrefixSum(1)]`), an interval as long as the entry's clamped weight.
   */
  lemma {:induction false} ChosenIffPickInInterval(es: seq<Entry>, u: real, i: nat)
    requires CanDraw(es) && 0.0 <= u < 1.0 && i < |es|
    ensures var pick := Pick(es, u);
      Choose(es, u) == i <==>
        (i == 0 || PrefixSum(es, i) < pick) && pick <= PrefixSum(es, i + 1)
  {
    var pick := Pick(es, u);
    FallbackUnreachable(es, u);
    WalkFromStart(es, pick);
    var k := Choose(es, u);
    if k != i {
      if k < i {
        PrefixSumMonotone(es, k + 1, i);
      } else {
        assert pick > PrefixSum(es, i + 1);
      }
    }
    if k > 0 {
      assert pick > PrefixSum(es, k);
    }
  }

  /** With exact arithmetic and a draw in [0, 1), the last-entry fallback is never taken. */
  lemma {:induction false} FallbackUnreachable(es: seq<Entry>, u: real)
    requires CanDraw(es) && 0.0 <= u < 1.0
    ensures WalkFrom(es, 0, Pick(es, u)).Some?
  {
    WalkCoversBelowTotal(es, Pick(es, u));
  }

  /** Any pick in [0, total) is covered by some entry's interval. */
  lemma {:induction false} WalkCoversBelowTotal(es: seq<Entry>, pick: real)
    requires 0.0 <= pick < Total(es)
    ensures WalkFrom(es, 0, pick).Some?
  {
    WalkFromStart(es, pick);
  }

  /** A draw in [0, 1) scaled by a positive total lies in [0, total). */
  lemma {:induction false} ScaledDrawBelowTotal(u: real, t: real, pick: real)
    requires 0.0 <= u < 1.0 && t > 0.0 && pick == u * t
    ensures 0.0 <= pick < t
  {
    assert (1.0 - u) * t > 0.0;
  }

  /** A draw scaled by a positive total is zero only if the draw is. */
  lemma {:induction false} ScaledDrawZero(u: real, t: real, pick: real)
    requires t > 0.0 && pick == u * t && pick == 0.0
    ensures u == 0.0
  {
  }

  /**
   * A zero-weight (or negative-weight) entry is chosen only as the first entry
   * and only when the draw is zero.
   */
  lemma {:induction false} ZeroWeightChosenOnlyFirstAtZero(es: seq<Entry>, u: real)
    requires CanDraw(es) && 0.0 <= u < 1.0
    requires Clamped(es[Choose(es, u)].weight) == 0.0
    ensures Choose(es, u) == 0 && u == 0.0
  {
    var i := Choose(es, u);
    var pick := Pick(es, u);
    ChosenIffPickInInterval(es, u, i);
    assert PrefixSum(es, i + 1) == PrefixSum(es, i);
    assert i == 0 && pick == 0.0;
    ScaledDrawZero(u, Total(es), pick);
  }

  /** The table with every negative weight replaced by zero. */
  function ClampAll(es: seq<Entry>): (r: seq<Entry>)
    ensures |r| == |es|
    ensures forall i :: 0 <= i < |es| ==> r[i] == es[i].(weight := Clamped(es[i].weight))
  {
    seq(|es|, i requires 0 <= i < |es| => es[i].(weight := Clamped(es[i].weight)))
  }

  lemma {:induction false} ClampAllPrefixSum(es: seq<Entry>, k: nat)
    requires k <= |es|
    ensures PrefixSum(ClampAll(es), k) == PrefixSum(es, k)
    decreases k
  {
    if k > 0 {
      ClampAllPrefixSum(es, k - 1);
    }
  }

  lemma {:induction false} ClampAllWalk(es: seq<Entry>, i: nat, pick: real)
    requires i <= |es|
    ensures WalkFrom(ClampAll(es), i, pick) == WalkFrom(es, i, pick)
    decreases |es| - i
  {
    if i < |es| {
      ClampAllWalk(es, i + 1, pick - Clamped(es[i].weight));
    }
  }

  /** Negative weights behave exactly like zero weights, in the total and in the walk. */
  lemma {:induction false} NegativeWeightsActAsZero(es: seq<Entry>, s: Draws, pos: nat)
    ensures RollResult(ClampAll(es), s, pos) == RollResult(es, s, pos)
  {
    ClampAllPrefixSum(es, |es|);
    assert Total(ClampAll(es)) == Total(es);
    if CanDraw(es) {
      var u := s(pos);
      assert Pick(ClampAll(es), u) == Pick(es, u);
      ClampAllWalk(es, 0, Pick(es, u));
      assert Choose(ClampAll(es), u) == Choose(es, u);
    }
  }

  /**
   * `LootTable.Roll(rng)`: sum the clamped weights, return nothing if the
   * table is empty or weightless, otherwise draw once and walk the entries.
   */
  method Roll(entries: seq<Entry>, rng: Random) returns (r: Option<PrizeDef>)
    modifies rng
    ensures (r, rng.pos) == RollResult(entries, rng.stream, old(rng.pos))
  {
    if |entries| == 0 {
      return None;
    }
    var total := 0.0;
    for i := 0 to |entries|
      invariant total == PrefixSum(entries, i)
    {
      total := total + Max(0.0, entries[i].weight);
    }
    if total <= 0.0 {
      return None;
    }
    var u := rng.NextDouble();
    var pick := u * total;
    assert total == Total(entries);
    assert pick == Pick(entries, u);
    var i := 0;
    while i < |entries|
      invariant i <= |entries|
      invariant WalkFrom(entries, i, pick) == WalkFrom(entries, 0, Pick(entries, u))
    {
      var w := Max(0.0, entries[i].weight);
      if pick <= w {
        return Some(entries[i].prize);
      }
      pick := pick - w;
      i := i + 1;
    }
    return Some(entries[|entries| - 1].prize);
  }
}
