/**
 * The stand-alone prize spawner: a number of spawns at start, each put on
 * the layer its ground mask names, the layer being the mask's highest set
 * bit.
 */
module Spawner {
  import opened Common

  /** A C# `int`. */
  type Int32 = i: int | -0x8000_0000 <= i < 0x8000_0000

  function Pow2(k: nat): (p: nat)
    ensures p >= 1
  {
    if k == 0 then 1 else 2 * Pow2(k - 1)
  }

  /** Powers of two grow with the exponent. */
  lemma {:induction false} Pow2Monotone(a: nat, b: nat)
    requires a <= b
    ensures Pow2(a) <= Pow2(b)
    decreases b
  {
    if a < b {
      Pow2Monotone(a, b - 1);
    }
  }

  /**
   * What the shifting loop counts: how often a value above one can be halved
   * before it is one or less.
   */
  function HighestBit(v: int): nat
    decreases if v > 1 then v else 0
  {
    if v <= 1 then 0 else 1 + HighestBit(v / 2)
  }

  /** For a positive value the count is the index of its highest set bit. */
  lemma {:induction false} HighestBitBounds(v: int)
    requires v >= 1
    ensures Pow2(HighestBit(v)) <= v < Pow2(HighestBit(v) + 1)
    decreases v
  {
    if v > 1 {
      HighestBitBounds(v / 2);
    }
  }

  /** The highest set bit is the only exponent that brackets the value. */
  lemma {:induction false} HighestBitUnique(v: int, r: nat)
    requires Pow2(r) <= v < Pow2(r + 1)
    ensures HighestBit(v) == r
    decreases r
  {
    if r > 0 {
      assert v >= 2;
      HighestBitUnique(v / 2, r - 1);
    }
  }

  /** A single set bit at `k` gives layer `k`. */
  lemma {:induction false} HighestBitOfPow2(k: nat)
    ensures HighestBit(Pow2(k)) == k
  {
    HighestBitUnique(Pow2(k), k);
  }

  /** 2 to the 31st, one more than the largest `int`. */
  lemma Pow2Of31()
    ensures Pow2(31) == 0x8000_0000
  {
    assert Pow2(8) == 0x100;
    assert Pow2(16) == 0x1_0000;
    assert Pow2(24) == 0x100_0000;
  }

  /** An `int` mask never names a layer above 30. */
  lemma {:induction false} HighestBitOfInt32(v: Int32)
    ensures HighestBit(v) <= 30
  {
    if v >= 1 {
      HighestBitBounds(v);
      if HighestBit(v) >= 31 {
        Pow2Monotone(31, HighestBit(v));
        Pow2Of31();
        assert false;
      }
    }
  }

  /** `n` copies of `x`. */
  function Repeat(x: int, n: nat): (s: seq<int>)
    ensures |s| == n && forall i :: 0 <= i < n ==> s[i] == x
  {
    seq(n, _ => x)
  }

  /** `PrizeSpawner`, with each spawned object kept as the layer it was put on. */
  class PrizeSpawner {
    var initialCount: int
    /** `groundMask.value`. */
    var groundMask: Int32
    /** The layers of the spawned objects, in spawn order. */
    var spawnedLayers: seq<int>

    /** The inspector default of 25 spawns and the given mask; nothing spawned yet. */
    constructor (groundMask: Int32)
      ensures initialCount == 25 && this.groundMask == groundMask && spawnedLayers == []
    {
      initialCount := 25;
      this.groundMask := groundMask;
      spawnedLayers := [];
    }

    /**
     * `LayerMaskToLayer`: halve the mask value while it is above one,
     * counting the halvings.  Zero, one and negative masks give layer 0;
     * otherwise the result is the highest set bit, never the lowest.
     */
    method LayerMaskToLayer(mask: Int32) returns (layer: int)
      ensures layer == HighestBit(mask)
      ensures 0 <= layer <= 30
      ensures mask <= 1 ==> layer == 0
      ensures mask >= 1 ==> Pow2(layer) <= mask < Pow2(layer + 1)
    {
      var val: int := mask;
      layer := 0;
      while val > 1
        invariant layer >= 0
        invariant layer + HighestBit(val) == HighestBit(mask)
        decreases val
      {
        val := val / 2;
        layer := layer + 1;
      }
      HighestBitOfInt32(mask);
      if mask >= 1 {
        HighestBitBounds(mask);
      }
    }

    /** `SpawnOne`: one object on the ground mask's layer. */
    method SpawnOne()
      modifies this`spawnedLayers
      ensures spawnedLayers == old(spawnedLayers) + [HighestBit(groundMask)]
    {
      var layer := LayerMaskToLayer(groundMask);
      spawnedLayers := spawnedLayers + [layer];
    }

    /** `Start`: `initialCount` spawns, none for a count of zero or less. */
    method Start()
      modifies this`spawnedLayers
      ensures spawnedLayers == old(spawnedLayers) + Repeat(HighestBit(groundMask), ClampToNat(initialCount))
    {
      var i := 0;
      while i < initialCount
        invariant 0 <= i <= ClampToNat(initialCount)
        invariant spawnedLayers == old(spawnedLayers) + Repeat(HighestBit(groundMask), i)
      {
        SpawnOne();
        i := i + 1;
      }
    }
  }
}
