/**
 * The claw machine's play loop: positioning with random drift, a paid drop,
 * a probabilistic clamp over the overlap buffer, and the payout that follows
 * the lift.  One seeded random source feeds the drift, the capture and the
 * loot rolls, in the order the calls happen.
 */
module Machine {
  import opened Common
  import opened Prizes
  import opened RandomSource
  import opened Loot
  import opened Spawning
  import opened Actuator
  import opened Economy
  import opened Inventory

  /** `ClawState`.  `Resolving` is declared by the game but never entered. */
  datatype ClawState = Idle | Positioning | Dropping | Clamping | Lifting | Resolving

  /** Inspector `[Min(1)]` integers. */
  type Positive = n: int | n >= 1 witness 1

  /** `MachineConfig`, with its inspector bounds as types. */
  datatype MachineConfig = MachineConfig(
    machineId: string,
    displayName: string,
    creditCost: nat,
    ticketCost: nat,
    horizontalDeadZone: Fraction,
    drift: Fraction,
    swinginess: Fraction,
    clampStrength: Fraction,
    dropSpeed: NonNegReal,
    liftSpeed: NonNegReal,
    maxDropDepth: NonNegReal,
    lootTable: seq<Entry>,
    pitInitialItems: Positive,
    pitBounds: Vec3)

  /** Seconds between two drift impulses. */
  const DriftInterval: real := 0.35

  /** The length of the overlap buffer. */
  const BufferSize: nat := 8

  // ----- drift -----

  /**
   * `RandomRangeSigned(mag)` for the draw `u`: `(u * 2 - 1) * mag`, anywhere
   * in `[-mag, mag)` for a positive `mag`.
   */
  function Signed(u: real, mag: real): (r: real)
    requires 0.0 <= u < 1.0 && mag >= 0.0
    ensures -mag <= r <= mag
    ensures mag > 0.0 ==> r < mag
  {
    ScaledDrawBetween(u, mag, u * mag);
    (u * 2.0 - 1.0) * mag
  }

  /** What one positioning `Update` does to the drift: the timer, the new move if one fired, the position. */
  datatype DriftOutcome = DriftOutcome(timer: real, move: Option<Vec2>, pos: nat)

  /**
   * `Update(dt)` in Positioning, from timer `timer` and position `pos` of the
   * draws: the timer runs down by `dt`; once it reaches zero it is reset and
   * two draws make a new move, x first.
   */
  function Drift(timer: real, dt: real, magnitude: real, s: Draws, pos: nat): (r: DriftOutcome)
    requires magnitude >= 0.0
    // a move fires exactly when the timer runs out, and then it is reset
    ensures r.move.Some? <==> timer - dt <= 0.0
    ensures r.timer == if r.move.Some? then DriftInterval else timer - dt
    // each firing takes two draws; each component lies within the magnitude
    ensures r.pos == pos + (if r.move.Some? then 2 else 0)
    ensures r.move.Some? ==>
      && -magnitude <= r.move.value.x <= magnitude
      && -magnitude <= r.move.value.y <= magnitude
  {
    var t := timer - dt;
    if t <= 0.0 then
      DriftOutcome(DriftInterval, Some(Vec2(Signed(s(pos), magnitude), Signed(s(pos + 1), magnitude))), pos + 2)
    else DriftOutcome(t, None, pos)
  }

  // ----- move input -----

  /**
   * The input forwarded by `HandleMoveInput`: zero when its magnitude is below
   * the dead zone (compared squared), otherwise the input itself.
   */
  function DeadZoned(input: Vec2, deadZone: real): Vec2
  {
    if input.x * input.x + input.y * input.y < deadZone * deadZone then Zero2 else input
  }

  lemma {:induction false} SquareMonotone(a: real, b: real)
    requires 0.0 <= a <= b
    ensures a * a <= b * b
  {
    assert a * a <= a * b;
    assert a * b <= b * b;
  }

  /**
   * With a non-negative dead zone, an input with a component at least as large
   * as the dead zone passes unchanged, and one with both components below half
   * of it is zeroed; nothing else than the input or zero is ever forwarded.
   */
  lemma {:induction false} DeadZoneKeepsOrZeroes(input: Vec2, deadZone: real)
    requires deadZone >= 0.0
    ensures DeadZoned(input, deadZone) == input || DeadZoned(input, deadZone) == Zero2
    ensures Abs(input.x) >= deadZone || Abs(input.y) >= deadZone ==> DeadZoned(input, deadZone) == input
    ensures Abs(input.x) < deadZone / 2.0 && Abs(input.y) < deadZone / 2.0 ==> DeadZoned(input, deadZone) == Zero2
  {
    var ax, ay := Abs(input.x), Abs(input.y);
    assert ax * ax == input.x * input.x && ay * ay == input.y * input.y;
    assert 0.0 <= ax * ax && 0.0 <= ay * ay;
    if ax >= deadZone {
      SquareMonotone(deadZone, ax);
    }
    if ay >= deadZone {
      SquareMonotone(deadZone, ay);
    }
    if ax < deadZone / 2.0 && ay < deadZone / 2.0 {
      SquareLess(ax, deadZone / 2.0);
      SquareLess(ay, deadZone / 2.0);
      assert (deadZone / 2.0) * (deadZone / 2.0) == deadZone * deadZone / 4.0;
    }
  }

  lemma {:induction false} SquareLess(a: real, b: real)
    requires 0.0 <= a < b
    ensures a * a < b * b
  {
    assert (b - a) * a >= 0.0;
    assert (b - a) * b > 0.0;
  }

  /**
   * The dead zone stated on the magnitude `m` of the input, as the game
   * states it: below the dead zone the move is zeroed, otherwise it passes
   * unchanged.
   */
  lemma {:induction false} DeadZoneByMagnitude(input: Vec2, deadZone: real, m: real)
    requires deadZone >= 0.0 && m >= 0.0 && m * m == input.x * input.x + input.y * input.y
    ensures m < deadZone ==> DeadZoned(input, deadZone) == Zero2
    ensures m >= deadZone ==> DeadZoned(input, deadZone) == input
  {
    if m < deadZone {
      SquareLess(m, deadZone);
    } else {
      SquareMonotone(deadZone, m);
    }
  }

  // ----- the play cost -----

  /** `CanAffordPlay` for the given balances: each positive cost is covered. */
  predicate Affordable(credits: int, tickets: int, cfg: MachineConfig)
  {
    && (cfg.creditCost > 0 ==> credits >= cfg.creditCost)
    && (cfg.ticketCost > 0 ==> tickets >= cfg.ticketCost)
  }

  /** With non-negative balances, a play is affordable exactly when both costs are covered. */
  lemma AffordableIffCovered(credits: int, tickets: int, cfg: MachineConfig)
    requires credits >= 0 && tickets >= 0
    ensures Affordable(credits, tickets, cfg) <==> credits >= cfg.creditCost && tickets >= cfg.ticketCost
  {
  }

  /** The balances after `ConsumePlayCost`: each positive cost is spent through the ledger. */
  function Charged(l: Ledger, cfg: MachineConfig): (r: Ledger)
    // an affordable play costs exactly its two prices
    ensures Affordable(l.credits, l.tickets, cfg) ==>
      r == Ledger(l.credits - cfg.creditCost, l.tickets - cfg.ticketCost)
    // balances never go negative, never rise
    ensures l.credits >= 0 && l.tickets >= 0 ==>
      0 <= r.credits <= l.credits && 0 <= r.tickets <= l.tickets
  {
    var afterCredits := if cfg.creditCost > 0 then Apply(l, SpendCredits(cfg.creditCost)) else l;
    if cfg.ticketCost > 0 then Apply(afterCredits, SpendTickets(cfg.ticketCost)) else afterCredits
  }

  /** The notifications `ConsumePlayCost` raises for an affordable play. */
  function ChargeLog(l: Ledger, cfg: MachineConfig): seq<Event>
  {
    (if cfg.creditCost > 0 then [CreditsChanged(l.credits - cfg.creditCost)] else [])
      + (if cfg.ticketCost > 0 then [TicketsChanged(l.tickets - cfg.ticketCost)] else [])
  }

  // ----- the capture scan -----

  /**
   * Whether a buffer slot takes part in the scan: it holds a collider whose
   * game object is not destroyed (a destroyed one compares equal to null) and
   * which carries a `PrizeItem`.
   */
  predicate Eligible(c: Option<Collider>, destroyed: set<nat>)
  {
    c.Some? && c.value.obj !in destroyed && c.value.prize.Some?
  }

  /** The jitter `u * 0.2 - 0.1` added to the clamp strength, in [-0.1, 0.1). */
  function Jitter(u: real): (j: real)
    requires 0.0 <= u < 1.0
    ensures -0.1 <= j < 0.1
  {
    u * 0.2 - 0.1
  }

  /** The capture chance for the draw `u`: the clamp strength, jittered, clamped to [0, 1]. */
  function Chance(strength: real, u: real): (c: real)
    requires 0.0 <= u < 1.0
    ensures 0.0 <= c <= 1.0
    // for a strength in [0, 1] the chance stays within 0.1 of it
    ensures 0.0 <= strength <= 1.0 ==> strength - 0.1 <= c < strength + 0.1
  {
    Clamp01(strength + Jitter(u))
  }

  /** Whether the pair of draws at `p`, `p + 1` captures: the second is at most the chance the first sets. */
  predicate Hit(strength: real, s: Draws, p: nat)
  {
    s(p + 1) <= Chance(strength, s(p))
  }

  /** The capture scan's result: the captured slot, if any, and the position afterwards. */
  datatype Capture = Capture(index: Option<nat>, pos: nat)

  /**
   * The scan loop of `HandleClamp` from slot `i`: skip ineligible slots, draw
   * a chance and a roll for each eligible one, stop at the first hit.
   */
  function ScanFrom(buf: seq<Option<Collider>>, destroyed: set<nat>, strength: real, s: Draws, pos: nat, i: nat): (r: Capture)
    requires i <= |buf|
    ensures r.index.Some? ==> i <= r.index.value < |buf| && Eligible(buf[r.index.value], destroyed)
    decreases |buf| - i
  {
    if i == |buf| then Capture(None, pos)
    else if !Eligible(buf[i], destroyed) then ScanFrom(buf, destroyed, strength, s, pos, i + 1)
    else if Hit(strength, s, pos) then Capture(Some(i), pos + 2)
    else ScanFrom(buf, destroyed, strength, s, pos + 2, i + 1)
  }

  /** How many of the slots `i` up to `k` are eligible. */
  function EligibleCount(buf: seq<Option<Collider>>, destroyed: set<nat>, i: nat, k: nat): nat
    requires i <= k <= |buf|
    decreases k - i
  {
    if i == k then 0
    else (if Eligible(buf[i], destroyed) then 1 else 0) + EligibleCount(buf, destroyed, i + 1, k)
  }

  /**
   * The scan is first-match in buffer order: the captured slot is eligible and
   * hit with the draws after those of every earlier eligible slot, every earlier
   * eligible slot missed, and each eligible slot scanned took two draws.
   */
  lemma ScanIsFirstMatch(buf: seq<Option<Collider>>, destroyed: set<nat>, strength: real, s: Draws, pos: nat, i: nat)
    requires i <= |buf|
    ensures var r := ScanFrom(buf, destroyed, strength, s, pos, i);
      && (r.index.Some? ==>
            var k := r.index.value;
            && Hit(strength, s, pos + 2 * EligibleCount(buf, destroyed, i, k))
            && r.pos == pos + 2 * EligibleCount(buf, destroyed, i, k) + 2
            && forall j :: i <= j < k && Eligible(buf[j], destroyed) ==>
                 !Hit(strength, s, pos + 2 * EligibleCount(buf, destroyed, i, j)))
      && (r.index.None? ==>
            && r.pos == pos + 2 * EligibleCount(buf, destroyed, i, |buf|)
            && forall j :: i <= j < |buf| && Eligible(buf[j], destroyed) ==>
                 !Hit(strength, s, pos + 2 * EligibleCount(buf, destroyed, i, j)))
  {
    ScanHitAt(buf, destroyed, strength, s, pos, i);
    var r := ScanFrom(buf, destroyed, strength, s, pos, i);
    var end := if r.index.Some? then r.index.value else |buf|;
    forall j | i <= j < end && Eligible(buf[j], destroyed)
      ensures !Hit(strength, s, pos + 2 * EligibleCount(buf, destroyed, i, j))
    {
      ScanMissesBefore(buf, destroyed, strength, s, pos, i, j);
    }
  }

  /** Where the scan stops, and how many draws it has taken by then. */
  lemma {:induction false} ScanHitAt(buf: seq<Option<Collider>>, destroyed: set<nat>, strength: real, s: Draws, pos: nat, i: nat)
    requires i <= |buf|
    ensures var r := ScanFrom(buf, destroyed, strength, s, pos, i);
      && (r.index.Some? ==>
            && Hit(strength, s, pos + 2 * EligibleCount(buf, destroyed, i, r.index.value))
            && r.pos == pos + 2 * EligibleCount(buf, destroyed, i, r.index.value) + 2)
      && (r.index.None? ==> r.pos == pos + 2 * EligibleCount(buf, destroyed, i, |buf|))
    decreases |buf| - i
  {
    if i < |buf| {
      var next := if Eligible(buf[i], destroyed) then pos + 2 else pos;
      if !Eligible(buf[i], destroyed) || !Hit(strength, s, pos) {
        ScanHitAt(buf, destroyed, strength, s, next, i + 1);
        var r := ScanFrom(buf, destroyed, strength, s, next, i + 1);
        var end := if r.index.Some? then r.index.value else |buf|;
        EligibleCountSkips(buf, destroyed, i, end);
      }
    }
  }

  /** Every eligible slot the scan passes over was a miss. */
  lemma {:induction false} ScanMissesBefore(buf: seq<Option<Collider>>, destroyed: set<nat>, strength: real, s: Draws, pos: nat, i: nat, j: nat)
    requires i <= j < |buf| && Eligible(buf[j], destroyed)
    requires var r := ScanFrom(buf, destroyed, strength, s, pos, i); r.index.None? || j < r.index.value
    ensures !Hit(strength, s, pos + 2 * EligibleCount(buf, destroyed, i, j))
    decreases j - i
  {
    if i < j {
      EligibleCountSkips(buf, destroyed, i, j);
      var next := if Eligible(buf[i], destroyed) then pos + 2 else pos;
      ScanMissesBefore(buf, destroyed, strength, s, next, i + 1, j);
    }
  }

  /** Unfolding `EligibleCount` at its first slot, for any end. */
  lemma EligibleCountSkips(buf: seq<Option<Collider>>, destroyed: set<nat>, i: nat, k: nat)
    requires i < k <= |buf|
    ensures EligibleCount(buf, destroyed, i, k)
      == (if Eligible(buf[i], destroyed) then 1 else 0) + EligibleCount(buf, destroyed, i + 1, k)
  {
  }

  /**
   * The buffer is never cleared, so a clamp whose query finds nothing can still
   * capture a prize a previous query left in the buffer.
   */
  lemma StaleCapture(buf: seq<Option<Collider>>, destroyed: set<nat>, strength: real, s: Draws, pos: nat)
    requires |buf| > 0 && Eligible(buf[0], destroyed) && Hit(strength, s, pos)
    ensures ScanFrom(Overlaid(buf, []), destroyed, strength, s, pos, 0).index == Some(0)
  {
  }

  // ----- the payout -----

  /**
   * What `ResolvePayout` does to the balances and the owned set for a carried
   * prize: the prize is recorded; only a prize not owned before pays its
   * rewards.
   */
  function Payout(l: Ledger, owned: set<string>, def: PrizeDef): (r: (Ledger, set<string>))
    ensures r.1 == owned + {def.id}
    ensures r.0 == if def.id in owned then l
      else Ledger(l.credits + def.creditReward, l.tickets + def.ticketReward)
  {
    var (isNew, owned') := Added(owned, def.id);
    if !isNew then (l, owned')
    else
      var afterCredits := if def.creditReward > 0 then Apply(l, AddCredits(def.creditReward)) else l;
      var afterTickets := if def.ticketReward > 0 then Apply(afterCredits, AddTickets(def.ticketReward)) else afterCredits;
      (afterTickets, owned')
  }

  /** A prize pays out at most once: paying the same definition again changes nothing. */
  lemma PayoutOnce(l: Ledger, owned: set<string>, def: PrizeDef)
    ensures var (l', owned') := Payout(l, owned, def);
      Payout(l', owned', def) == (l', owned')
  {
  }

  /** The notifications `ResolvePayout` raises through the ledger for a prize that is new. */
  function PayoutLog(l: Ledger, def: PrizeDef): seq<Event>
  {
    (if def.creditReward > 0 then [CreditsChanged(l.credits + def.creditReward)] else [])
      + (if def.ticketReward > 0 then [TicketsChanged(l.tickets + def.ticketReward)] else [])
  }

  /**
   * The refill at the end of `ResolvePayout`: a first roll whose result is
   * discarded, then, if it was not empty, `FillPit` with a count of one.
   */
  function Refill(table: seq<Entry>, s: Draws, pos: nat, center: Vec3, size: Vec3): (r: (seq<PitItem>, nat))
    // at most one item, and only when the table can draw
    ensures |r.0| <= 1
    ensures |r.0| == 1 ==> CanDraw(table)
    // two rolls of one draw each when the table can draw, none otherwise, three more for a spawn
    ensures r.1 == pos + (if CanDraw(table) then 2 else 0) + 3 * |r.0|
    // the item spawned is one the second roll picked and lies in the box
    ensures |r.0| == 1 ==>
      && RollResult(table, s, pos + 1).0 == Some(r.0[0].def)
      && Spawnable(table, r.0[0], center, size)
  {
    var (first, p) := RollResult(table, s, pos);
    if first.None? then ([], p)
    else
      FilledSound(table, s, p, 1, center, size);
      assert Filled(table, s, p, 0, center, size) == ([], p);
      Filled(table, s, p, 1, center, size)
  }

  /** `ClawMachineController`. */
  class ClawMachineController {
    const config: MachineConfig
    const grabber: Grabber
    const spawn: SpawnGrid
    const econ: EconomyService
    const inv: InventoryService
    /** `_rng`, seeded with 1337: its stream is fixed by the seed. */
    const rng: Random
    /** `_overlapBuffer`. */
    const overlapBuffer: array<Option<Collider>>
    var state: ClawState
    var driftTimer: real
    /** The game objects destroyed so far; a reference to one of them compares equal to null. */
    var destroyed: set<nat>

    ghost predicate Valid()
      reads this, grabber, econ, overlapBuffer
    {
      && overlapBuffer.Length == BufferSize
      // every collider the buffer holds, stale or not, carries its own object's prize
      && (forall i :: 0 <= i < overlapBuffer.Length && overlapBuffer[i].Some? ==> OwnPrize(overlapBuffer[i].value))
      && grabber.Valid() && econ.Valid()
      // between calls the machine is never Clamping, and never Resolving
      && state != Clamping && state != Resolving
      // a prize rides on the hook only during the lift
      && |grabber.hookPrizes| <= 1
      && (grabber.hookPrizes != [] ==> state == Lifting)
    }

    /** The component before `Start`: Idle, with an empty overlap buffer. */
    constructor (config: MachineConfig, grabber: Grabber, spawn: SpawnGrid, econ: EconomyService, inv: InventoryService, rng: Random)
      requires grabber.Valid() && econ.Valid() && grabber.hookPrizes == []
      ensures Valid()
      ensures this.config == config && this.grabber == grabber && this.spawn == spawn
      ensures this.econ == econ && this.inv == inv && this.rng == rng
      ensures state == Idle && driftTimer == 0.0 && destroyed == {}
      ensures fresh(overlapBuffer) && forall i :: 0 <= i < overlapBuffer.Length ==> overlapBuffer[i] == None
    {
      this.config := config;
      this.grabber := grabber;
      this.spawn := spawn;
      this.econ := econ;
      this.inv := inv;
      this.rng := rng;
      overlapBuffer := new Option<Collider>[BufferSize](_ => None);
      state := Idle;
      driftTimer := 0.0;
      destroyed := {};
    }

    /**
     * `Start`: fill the pit with `PitInitialItems` rolls inside `PitBounds`,
     * hand the motion settings to the grabber, and enter Positioning.  It runs
     * before the first physics step, so the hook is still at rest.
     */
    method Start()
      requires Valid() && state == Idle && grabber.hookY == grabber.baseY
      modifies this`state, spawn, rng, grabber
      ensures Valid()
      ensures state == Positioning
      ensures spawn.pitSize == config.pitBounds
      ensures var (items, p) := Filled(config.lootTable, rng.stream, old(rng.pos), config.pitInitialItems, spawn.center, config.pitBounds);
        spawn.pit == old(spawn.pit) + items && rng.pos == p
      ensures grabber.dropSpeed == config.dropSpeed && grabber.liftSpeed == config.liftSpeed
      ensures grabber.maxDropDepth == config.maxDropDepth && grabber.swinginess == config.swinginess
      ensures grabber.hookY == old(grabber.hookY) && grabber.dropping == old(grabber.dropping)
      ensures grabber.lifting == old(grabber.lifting) && grabber.moveInput == old(grabber.moveInput)
      ensures grabber.hookPrizes == old(grabber.hookPrizes) && grabber.horizontalSpeed == old(grabber.horizontalSpeed)
    {
      spawn.pitSize := config.pitBounds;
      spawn.FillPit(rng, config.lootTable, config.pitInitialItems);
      grabber.dropSpeed := config.dropSpeed;
      grabber.liftSpeed := config.liftSpeed;
      grabber.maxDropDepth := config.maxDropDepth;
      grabber.swinginess := config.swinginess;
      state := Positioning;
    }

    /**
     * `Update` for a frame of `dt` seconds: in Positioning the drift timer runs
     * down and, when it expires, a random move replaces the stored one.
     */
    method Update(dt: real)
      requires Valid()
      modifies this`driftTimer, grabber`moveInput, rng
      ensures Valid()
      ensures old(state) != Positioning ==>
        driftTimer == old(driftTimer) && grabber.moveInput == old(grabber.moveInput) && rng.pos == old(rng.pos)
      ensures old(state) == Positioning ==>
        var d := Drift(old(driftTimer), dt, config.drift * 0.5, rng.stream, old(rng.pos));
        && driftTimer == d.timer && rng.pos == d.pos
        && grabber.moveInput == if d.move.Some? then d.move.value else old(grabber.moveInput)
    {
      if state == Positioning {
        driftTimer := driftTimer - dt;
        if driftTimer <= 0.0 {
          driftTimer := DriftInterval;
          var ux := rng.NextDouble();
          var x := Signed(ux, config.drift * 0.5);
          var uy := rng.NextDouble();
          var y := Signed(uy, config.drift * 0.5);
          grabber.SetMove(Vec2(x, y));
        }
      }
    }

    /** `HandleMoveInput`: only in Positioning, with the dead zone applied. */
    method HandleMoveInput(input: Vec2)
      requires Valid()
      modifies grabber`moveInput
      ensures Valid()
      ensures grabber.moveInput ==
        if old(state) == Positioning then DeadZoned(input, config.horizontalDeadZone) else old(grabber.moveInput)
    {
      if state != Positioning {
        return;
      }
      grabber.SetMove(DeadZoned(input, config.horizontalDeadZone));
    }

    /** `CanAffordPlay`, on the live balances. */
    function CanAffordPlay(): (b: bool)
      reads this, econ
      ensures b <==> Affordable(econ.credits, econ.tickets, config)
    {
      !(config.creditCost > 0 && econ.credits < config.creditCost)
        && !(config.ticketCost > 0 && econ.tickets < config.ticketCost)
    }

    /** `ConsumePlayCost`: spend each positive cost. */
    method ConsumePlayCost()
      requires Valid()
      modifies econ
      ensures Valid()
      ensures Ledger(econ.credits, econ.tickets) == Charged(Ledger(old(econ.credits), old(econ.tickets)), config)
      ensures Affordable(old(econ.credits), old(econ.tickets), config) ==>
        econ.events == old(econ.events) + ChargeLog(Ledger(old(econ.credits), old(econ.tickets)), config)
    {
      if config.creditCost > 0 {
        var _ := econ.SpendCredits(config.creditCost);
      }
      if config.ticketCost > 0 {
        var _ := econ.SpendTickets(config.ticketCost);
      }
    }

    /**
     * `HandleDrop`: in Positioning, and only if the play is affordable, pay
     * and start dropping; otherwise nothing changes.
     */
    method HandleDrop()
      requires Valid()
      modifies this`state, econ, grabber`dropping, grabber`lifting
      ensures Valid()
      ensures var go := old(state) == Positioning && Affordable(old(econ.credits), old(econ.tickets), config);
        && (!go ==>
              && state == old(state) && econ.credits == old(econ.credits) && econ.tickets == old(econ.tickets)
              && econ.events == old(econ.events)
              && grabber.dropping == old(grabber.dropping) && grabber.lifting == old(grabber.lifting))
        && (go ==>
              && state == Dropping && grabber.dropping && !grabber.lifting
              && econ.credits == old(econ.credits) - config.creditCost
              && econ.tickets == old(econ.tickets) - config.ticketCost
              && econ.events == old(econ.events) + ChargeLog(Ledger(old(econ.credits), old(econ.tickets)), config))
    {
      if state != Positioning {
        return;
      }
      if !CanAffordPlay() {
        return;
      }
      ConsumePlayCost();
      state := Dropping;
      grabber.BeginDrop();
    }

    /** The captured prize a scan result names, if any. */
    static function CapturedPrize(buf: seq<Option<Collider>>, destroyed: set<nat>, c: Capture): (t: Option<PrizeItem>)
      requires c.index.Some? ==> c.index.value < |buf| && Eligible(buf[c.index.value], destroyed)
      ensures t.Some? <==> c.index.Some?
    {
      if c.index.Some? then buf[c.index.value].value.prize else None
    }

    /**
     * The capture loop of `HandleClamp` over the whole overlap buffer: skip
     * null and non-prize slots, draw a chance and a roll for each other one,
     * stop at the first roll within its chance.
     */
    method DecideCapture() returns (target: Option<PrizeItem>)
      modifies rng
      ensures var c := ScanFrom(overlapBuffer[..], destroyed, config.clampStrength, rng.stream, old(rng.pos), 0);
        rng.pos == c.pos && target == CapturedPrize(overlapBuffer[..], destroyed, c)
    {
      ghost var buf := overlapBuffer[..];
      ghost var start := rng.pos;
      var captured := false;
      target := None;
      var i := 0;
      while i < overlapBuffer.Length && !captured
        invariant 0 <= i <= overlapBuffer.Length
        invariant !captured ==>
          && target.None?
          && ScanFrom(buf, destroyed, config.clampStrength, rng.stream, start, 0)
               == ScanFrom(buf, destroyed, config.clampStrength, rng.stream, rng.pos, i)
        invariant captured ==>
          var c := ScanFrom(buf, destroyed, config.clampStrength, rng.stream, start, 0);
          c.pos == rng.pos && target == CapturedPrize(buf, destroyed, c)
        decreases overlapBuffer.Length - i, if captured then 0 else 1
      {
        var col := overlapBuffer[i];
        if col.None? || col.value.obj in destroyed || col.value.prize.None? {
          i := i + 1;
          continue;
        }
        var u := rng.NextDouble();
        var chance := Chance(config.clampStrength, u);
        var roll := rng.NextDouble();
        if roll <= chance {
          target := col.value.prize;
          captured := true;
        } else {
          i := i + 1;
        }
      }
    }

    /**
     * `HandleClamp`, with `hits` the colliders the overlap query finds: only
     * in Dropping; fill the buffer, scan it for a capture, parent a captured
     * prize to the hook, and start lifting whatever happened.
     */
    method HandleClamp(hits: seq<Collider>)
      requires Valid() && forall h :: h in hits ==> OwnPrize(h)
      modifies this`state, overlapBuffer, rng, grabber`hookPrizes, grabber`dropping, grabber`lifting
      ensures Valid()
      ensures old(state) != Dropping ==>
        && state == old(state) && overlapBuffer[..] == old(overlapBuffer[..]) && rng.pos == old(rng.pos)
        && grabber.hookPrizes == old(grabber.hookPrizes)
        && grabber.dropping == old(grabber.dropping) && grabber.lifting == old(grabber.lifting)
      ensures old(state) == Dropping ==>
        var buf := Overlaid(old(overlapBuffer[..]), hits);
        var c := ScanFrom(buf, destroyed, config.clampStrength, rng.stream, old(rng.pos), 0);
        && overlapBuffer[..] == buf
        && rng.pos == c.pos
        && grabber.hookPrizes == (if c.index.Some? then [CapturedPrize(buf, destroyed, c).value] else [])
        && state == Lifting && !grabber.dropping && grabber.lifting
      // a captured prize is never one already destroyed
      ensures old(state) == Dropping ==> forall t :: t in grabber.hookPrizes ==> t.instance !in destroyed
    {
      if state != Dropping {
        return;
      }
      state := Clamping;
      var _ := grabber.OverlapPrizesNonAlloc(overlapBuffer, hits);
      var target := DecideCapture();
      var captured := target.Some?;
      if captured && target.Some? {
        grabber.hookPrizes := grabber.hookPrizes + [target.value];
      }
      state := Lifting;
      grabber.BeginLift();
    }

    /** `HandleCancel`: reserved, does nothing. */
    method HandleCancel()
      requires Valid()
      ensures Valid()
    {
    }

    /**
     * The award part of `ResolvePayout` for the carried prize: record it and,
     * only if it was new, add each positive reward.
     */
    method Award(def: PrizeDef)
      requires econ.Valid()
      modifies inv, econ
      ensures econ.Valid()
      ensures var l := Ledger(old(econ.credits), old(econ.tickets));
        var (l', owned') := Payout(l, old(inv.owned), def);
        && inv.owned == owned' && econ.credits == l'.credits && econ.tickets == l'.tickets
        && econ.events == old(econ.events) + (if def.id in old(inv.owned) then [] else PayoutLog(l, def))
    {
      var isNew := inv.Add(def.id);
      if isNew {
        if def.creditReward > 0 {
          var _ := econ.AddCredits(def.creditReward);
        }
        if def.ticketReward > 0 {
          var _ := econ.AddTickets(def.ticketReward);
        }
      }
    }

    /** The refill part of `ResolvePayout`: a discarded roll, then one `FillPit` iteration if it was not empty. */
    method RefillPit()
      modifies spawn`pit, rng
      ensures var (items, p) := Refill(config.lootTable, rng.stream, old(rng.pos), spawn.center, spawn.pitSize);
        spawn.pit == old(spawn.pit) + items && rng.pos == p
    {
      var newDef := Roll(config.lootTable, rng);
      if newDef.Some? {
        spawn.FillPit(rng, config.lootTable, 1);
      }
    }

    /**
     * `ResolvePayout`, the call `HandleClamp` schedules a second later: only in
     * Lifting or Clamping; award and destroy the carried prize, refill the pit,
     * and go back to Positioning.
     */
    method ResolvePayout()
      requires Valid()
      modifies this`state, this`destroyed, grabber`hookPrizes, inv, econ, spawn`pit, rng
      ensures Valid()
      ensures old(state) != Lifting && old(state) != Clamping ==>
        && state == old(state) && destroyed == old(destroyed) && grabber.hookPrizes == old(grabber.hookPrizes)
        && inv.owned == old(inv.owned) && spawn.pit == old(spawn.pit) && rng.pos == old(rng.pos)
        && econ.credits == old(econ.credits) && econ.tickets == old(econ.tickets) && econ.events == old(econ.events)
      ensures old(state) == Lifting || old(state) == Clamping ==>
        && state == Positioning
        && grabber.hookPrizes == []
        && (old(grabber.hookPrizes) == [] ==>
              && destroyed == old(destroyed) && inv.owned == old(inv.owned)
              && econ.credits == old(econ.credits) && econ.tickets == old(econ.tickets)
              && econ.events == old(econ.events))
        && (old(grabber.hookPrizes) != [] ==>
              var carried := old(grabber.hookPrizes)[0];
              var l := Ledger(old(econ.credits), old(econ.tickets));
              var (l', owned') := Payout(l, old(inv.owned), carried.def);
              && destroyed == old(destroyed) + {carried.instance}
              && inv.owned == owned' && econ.credits == l'.credits && econ.tickets == l'.tickets
              && econ.events == old(econ.events)
                   + (if carried.def.id in old(inv.owned) then [] else PayoutLog(l, carried.def)))
        && var (items, p) := Refill(config.lootTable, rng.stream, old(rng.pos), spawn.center, spawn.pitSize);
           spawn.pit == old(spawn.pit) + items && rng.pos == p
    {
      if state != Lifting && state != Clamping {
        return;
      }
      if grabber.hookPrizes != [] {
        var carried := grabber.hookPrizes[0];
        Award(carried.def);
        destroyed := destroyed + {carried.instance};
        grabber.hookPrizes := grabber.hookPrizes[1..];
      }
      RefillPit();
      state := Positioning;
    }
  }

  /** No operation ever enters `Resolving`: `Valid` excludes it and every method keeps `Valid`. */
  lemma NeverResolving(m: ClawMachineController)
    requires m.Valid()
    ensures m.state != Resolving
  {
  }
}
