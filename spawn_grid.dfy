/**
 * Filling the prize pit: a number of loot rolls, each non-empty roll whose
 * definition has a prefab placed at a random point of the pit box with a
 * random turn about the vertical axis.
 */
module Spawning {
  import opened Common
  import opened Prizes
  import opened RandomSource
  import opened Loot

  /** `Quaternion.Euler(pitch, yaw, roll)`, kept as its three angles in degrees. */
  datatype Rotation = Euler(pitch: real, yaw: real, roll: real)

  /** One instantiated prize in the pit, with its `PrizeItem.Definition`. */
  datatype PitItem = PitItem(def: PrizeDef, position: Vec3, rotation: Rotation)

  /**
   * `(u - 0.5) * size` for a draw `u` in [0, 1) lies within half the size of
   * zero, and never on the end `size / 2` unless the size is zero.
   */
  lemma {:induction false} CenteredOffset(u: real, size: real, off: real)
    requires 0.0 <= u < 1.0 && off == (u - 0.5) * size
    ensures -Abs(size) / 2.0 <= off <= Abs(size) / 2.0
    ensures size != 0.0 ==> off != size / 2.0
  {
    ScaledDrawBetween(u, size, u * size);
  }

  /** `u * size` for `u` in [0, 1) lies between zero and `size`, never on `size` itself. */
  lemma {:induction false} ScaledDrawBetween(u: real, size: real, us: real)
    requires 0.0 <= u < 1.0 && us == u * size
    ensures size >= 0.0 ==> 0.0 <= us <= size
    ensures size <= 0.0 ==> size <= us <= 0.0
    ensures size != 0.0 ==> us != size
  {
    if size > 0.0 {
      assert (1.0 - u) * size > 0.0;
    } else if size < 0.0 {
      assert (1.0 - u) * size < 0.0;
    }
  }

  /**
   * Whether `c` lies in the span a box of extent `size` has around `center`:
   * within half the extent, the end at `center + size / 2` excluded.
   */
  predicate InSpan(c: real, center: real, size: real)
  {
    && center - Abs(size) / 2.0 <= c <= center + Abs(size) / 2.0
    && (size != 0.0 ==> c != center + size / 2.0)
  }

  /**
   * `RandomPointInBox` for the draws `ux` and `uz`: x and z anywhere across
   * the box, y on its top face.
   */
  function RandomPointInBox(ux: real, uz: real, center: Vec3, size: Vec3): (p: Vec3)
    requires 0.0 <= ux < 1.0 && 0.0 <= uz < 1.0
    ensures InSpan(p.x, center.x, size.x) && InSpan(p.z, center.z, size.z)
    ensures p.y == center.y + size.y / 2.0
  {
    var dx := (ux - 0.5) * size.x;
    var dz := (uz - 0.5) * size.z;
    CenteredOffset(ux, size.x, dx);
    CenteredOffset(uz, size.z, dz);
    Vec3(center.x + dx, center.y + size.y * 0.5, center.z + dz)
  }

  /** `RandomRotationY` for the draw `u`: a yaw in [0, 360), no pitch, no roll. */
  function RandomRotationY(u: real): (r: Rotation)
    requires 0.0 <= u < 1.0
    ensures r.pitch == 0.0 && r.roll == 0.0
    ensures 0.0 <= r.yaw < 360.0
  {
    Euler(0.0, u * 360.0, 0.0)
  }

  /** Whether a spawned item is one `FillPit` can produce from `es` in the box. */
  predicate Spawnable(es: seq<Entry>, it: PitItem, center: Vec3, size: Vec3)
  {
    && it.def.hasPrefab
    && (exists j :: 0 <= j < |es| && es[j].prize == it.def)
    && InSpan(it.position.x, center.x, size.x)
    && InSpan(it.position.z, center.z, size.z)
    && it.position.y == center.y + size.y / 2.0
    && it.rotation.pitch == 0.0 && it.rotation.roll == 0.0
    && 0.0 <= it.rotation.yaw < 360.0
  }

  /**
   * One iteration of `FillPit` from position `pos` of the draws: the roll,
   * then, for a definition with a prefab, the draws for x, z and yaw in that
   * order.  The item spawned, if any, and the position afterwards.
   */
  function SpawnStep(es: seq<Entry>, s: Draws, pos: nat, center: Vec3, size: Vec3): (r: (Option<PitItem>, nat))
    // an item is spawned exactly when the roll gives a definition with a prefab,
    // and it is tagged with that definition
    ensures r.0.Some? <==> RollResult(es, s, pos).0.Some? && RollResult(es, s, pos).0.value.hasPrefab
    ensures r.0.Some? ==> r.0.value.def == RollResult(es, s, pos).0.value
    // a skipped roll takes only the roll's draws, a spawn three more
    ensures r.1 == RollResult(es, s, pos).1 + (if r.0.Some? then 3 else 0)
  {
    var (def, p) := RollResult(es, s, pos);
    if def.None? || !def.value.hasPrefab then (None, p)
    else
      var item := PitItem(def.value, RandomPointInBox(s(p), s(p + 1), center, size), RandomRotationY(s(p + 2)));
      (Some(item), p + 3)
  }

  /** Whatever one iteration spawns is spawnable: it has a prefab, comes from the table, lies in the box. */
  lemma SpawnStepSound(es: seq<Entry>, s: Draws, pos: nat, center: Vec3, size: Vec3)
    ensures var r := SpawnStep(es, s, pos, center, size);
      r.0.Some? ==> Spawnable(es, r.0.value, center, size)
  {
  }

  /** The items of an optional spawn, as a pit suffix. */
  function Spawned(o: Option<PitItem>): seq<PitItem>
  {
    if o.Some? then [o.value] else []
  }

  /**
   * `FillPit(rng, table, n)` for `n` iterations from position `pos`: the items
   * appended to the pit, in order, and the position afterwards.
   */
  function Filled(es: seq<Entry>, s: Draws, pos: nat, n: nat, center: Vec3, size: Vec3): (seq<PitItem>, nat)
    decreases n
  {
    if n == 0 then ([], pos)
    else
      var prev := Filled(es, s, pos, n - 1, center, size);
      var step := SpawnStep(es, s, prev.1, center, size);
      (prev.0 + Spawned(step.0), step.1)
  }

  /** One more iteration appends what `SpawnStep` spawns from where the others left off. */
  lemma FilledNext(es: seq<Entry>, s: Draws, pos: nat, n: nat, center: Vec3, size: Vec3)
    ensures var prev := Filled(es, s, pos, n, center, size);
      var step := SpawnStep(es, s, prev.1, center, size);
      Filled(es, s, pos, n + 1, center, size) == (prev.0 + Spawned(step.0), step.1)
  {
  }

  /**
   * `n` rolls spawn at most `n` items; they take one draw each when the table
   * can draw, and every spawned item three more; every item has a prefab,
   * comes from the table, and lies in the box with an upright random turn.
   */
  lemma {:induction false} FilledSound(es: seq<Entry>, s: Draws, pos: nat, n: nat, center: Vec3, size: Vec3)
    ensures var (items, p) := Filled(es, s, pos, n, center, size);
      && |items| <= n
      && p == pos + (if CanDraw(es) then n else 0) + 3 * |items|
      && forall k :: 0 <= k < |items| ==> Spawnable(es, items[k], center, size)
    decreases n
  {
    if n > 0 {
      FilledSound(es, s, pos, n - 1, center, size);
      var prev := Filled(es, s, pos, n - 1, center, size);
      var step := SpawnStep(es, s, prev.1, center, size);
      SpawnStepSound(es, s, prev.1, center, size);
      assert forall k :: 0 <= k < |prev.0| ==> (prev.0 + Spawned(step.0))[k] == prev.0[k];
    }
  }

  /** A table that cannot draw spawns nothing and takes no draws, however many rolls. */
  lemma {:induction false} WeightlessTableFillsNothing(es: seq<Entry>, s: Draws, pos: nat, n: nat, center: Vec3, size: Vec3)
    requires !CanDraw(es)
    ensures Filled(es, s, pos, n, center, size) == ([], pos)
    decreases n
  {
    if n > 0 {
      WeightlessTableFillsNothing(es, s, pos, n - 1, center, size);
      var prev := Filled(es, s, pos, n - 1, center, size);
      assert prev == ([], pos);
      assert RollResult(es, s, pos) == (None, pos);
      var step := SpawnStep(es, s, prev.1, center, size);
      assert step == (None, pos);
      assert Filled(es, s, pos, n, center, size) == (prev.0 + Spawned(step.0), step.1);
      assert prev.0 + Spawned(step.0) == [];
    }
  }

  /** `SpawnGrid`: the pit origin, its size, and the prizes spawned into it. */
  class SpawnGrid {
    /** `pitRoot.position`. */
    const center: Vec3
    var pitSize: Vec3
    var pit: seq<PitItem>

    /** The inspector default `pitSize = (4, 2, 4)`, an empty pit. */
    constructor (center: Vec3)
      ensures this.center == center && pitSize == Vec3(4.0, 2.0, 4.0) && pit == []
    {
      this.center := center;
      pitSize := Vec3(4.0, 2.0, 4.0);
      pit := [];
    }

    /**
     * The body of one `FillPit` iteration: roll, skip an empty roll or a
     * definition without a prefab, otherwise draw the position and the turn.
     */
    method RollAndPlace(rng: Random, table: seq<Entry>) returns (o: Option<PitItem>)
      modifies rng
      ensures (o, rng.pos) == SpawnStep(table, rng.stream, old(rng.pos), center, pitSize)
    {
      var def := Roll(table, rng);
      if def.None? || !def.value.hasPrefab {
        return None;
      }
      var ux := rng.NextDouble();
      var uz := rng.NextDouble();
      var position := RandomPointInBox(ux, uz, center, pitSize);
      var yaw := rng.NextDouble();
      var rotation := RandomRotationY(yaw);
      return Some(PitItem(def.value, position, rotation));
    }

    /** `FillPit(rng, table, count)`: a negative count runs no iteration. */
    method FillPit(rng: Random, table: seq<Entry>, count: int)
      modifies this`pit, rng
      ensures pit == old(pit) + Filled(table, rng.stream, old(rng.pos), ClampToNat(count), center, pitSize).0
      ensures rng.pos == Filled(table, rng.stream, old(rng.pos), ClampToNat(count), center, pitSize).1
    {
      ghost var draws, start, pit0 := rng.stream, rng.pos, pit;
      var i := 0;
      assert pit0 + [] == pit;
      while i < count
        invariant 0 <= i <= ClampToNat(count)
        invariant pit == pit0 + Filled(table, draws, start, i, center, pitSize).0
        invariant rng.pos == Filled(table, draws, start, i, center, pitSize).1
      {
        ghost var before := Filled(table, draws, start, i, center, pitSize);
        var spawned := RollAndPlace(rng, table);
        if spawned.Some? {
          pit := pit + [spawned.value];
        }
        FilledNext(table, draws, start, i, center, pitSize);
        assert pit0 + before.0 + Spawned(spawned) == pit0 + (before.0 + Spawned(spawned));
        i := i + 1;
      }
    }
  }
}
