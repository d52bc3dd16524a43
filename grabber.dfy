/**
 * The physical grabber: a stored horizontal move intent, a hook that drops
 * and lifts along its local y, the prizes parented to the hook, and the
 * overlap query that fills a caller's collider buffer.
 */
module Actuator {
  import opened Common
  import opened Prizes

  /**
   * A collider the overlap query can report: `obj` identifies its game object,
   * `prize` is its `PrizeItem` component, if it has one.
   */
  datatype Collider = Collider(obj: nat, prize: Option<PrizeItem>)

  /**
   * `TryGetComponent` reads the component of the collider's own game object,
   * so a prize a collider carries is that object.
   */
  predicate OwnPrize(c: Collider)
  {
    c.prize.Some? ==> c.prize.value.instance == c.obj
  }

  /** The vertical part of the grabber's state: hook local y and the two flags. */
  datatype Vertical = Vertical(y: real, dropping: bool, lifting: bool)

  /**
   * The vertical part of `FixedUpdate` for a step of `dt` seconds: dropping
   * lowers the hook towards the floor `baseY - maxDropDepth`, otherwise
   * lifting raises it towards `baseY` and stops once it is there.
   */
  function VerticalStep(v: Vertical, baseY: real, maxDropDepth: real, dropSpeed: real, liftSpeed: real, dt: real): (r: Vertical)
    // stepping never changes the dropping flag
    ensures r.dropping == v.dropping
    // a dropping hook never goes below the floor and keeps its lifting flag
    ensures v.dropping ==> r.y >= baseY - maxDropDepth && r.lifting == v.lifting
    // a lifting hook never goes above its rest height, and stops lifting exactly there
    ensures !v.dropping && v.lifting ==> r.y <= baseY && (r.lifting <==> r.y != baseY)
    // with neither flag set nothing moves
    ensures !v.dropping && !v.lifting ==> r == v
  {
    if v.dropping then
      v.(y := Max(baseY - maxDropDepth, v.y - dropSpeed * dt))
    else if v.lifting then
      var y := Min(baseY, v.y + liftSpeed * dt);
      v.(y := y, lifting := y != baseY)
    else v
  }

  /** Whether the hook is between the floor and its rest height. */
  predicate InTravel(v: Vertical, baseY: real, maxDropDepth: real)
  {
    baseY - maxDropDepth <= v.y <= baseY
  }

  /**
   * With non-negative depth, speeds and step, a step keeps the hook between
   * the floor and its rest height.
   */
  lemma {:induction false} StepStaysInTravel(v: Vertical, baseY: real, maxDropDepth: real, dropSpeed: real, liftSpeed: real, dt: real)
    requires maxDropDepth >= 0.0 && dropSpeed >= 0.0 && liftSpeed >= 0.0 && dt >= 0.0
    requires InTravel(v, baseY, maxDropDepth)
    ensures InTravel(VerticalStep(v, baseY, maxDropDepth, dropSpeed, liftSpeed, dt), baseY, maxDropDepth)
  {
    ProductNonNegative(dropSpeed, dt, dropSpeed * dt);
    ProductNonNegative(liftSpeed, dt, liftSpeed * dt);
  }

  /** The vertical state after steps of the given lengths, in order. */
  function Steps(v: Vertical, baseY: real, maxDropDepth: real, dropSpeed: real, liftSpeed: real, dts: seq<real>): Vertical
    decreases |dts|
  {
    if |dts| == 0 then v
    else Steps(VerticalStep(v, baseY, maxDropDepth, dropSpeed, liftSpeed, dts[0]), baseY, maxDropDepth, dropSpeed, liftSpeed, dts[1..])
  }

  /**
   * Any run of steps keeps the hook in its travel, never changes dropping,
   * and never starts a lift.
   */
  lemma {:induction false} StepsStayInTravel(v: Vertical, baseY: real, maxDropDepth: real, dropSpeed: real, liftSpeed: real, dts: seq<real>)
    requires maxDropDepth >= 0.0 && dropSpeed >= 0.0 && liftSpeed >= 0.0
    requires forall i :: 0 <= i < |dts| ==> dts[i] >= 0.0
    requires InTravel(v, baseY, maxDropDepth)
    ensures var r := Steps(v, baseY, maxDropDepth, dropSpeed, liftSpeed, dts);
      InTravel(r, baseY, maxDropDepth) && r.dropping == v.dropping && (r.lifting ==> v.lifting)
    decreases |dts|
  {
    if |dts| > 0 {
      StepStaysInTravel(v, baseY, maxDropDepth, dropSpeed, liftSpeed, dts[0]);
      var next := VerticalStep(v, baseY, maxDropDepth, dropSpeed, liftSpeed, dts[0]);
      assert forall i :: 0 <= i < |dts[1..]| ==> dts[1..][i] == dts[i + 1];
      StepsStayInTravel(next, baseY, maxDropDepth, dropSpeed, liftSpeed, dts[1..]);
    }
  }

  /** A lift step long enough to cover the remaining distance ends the lift at rest height. */
  lemma {:induction false} LiftReachesRest(v: Vertical, baseY: real, maxDropDepth: real, dropSpeed: real, liftSpeed: real, dt: real)
    requires !v.dropping && v.lifting
    requires v.y + liftSpeed * dt >= baseY
    ensures VerticalStep(v, baseY, maxDropDepth, dropSpeed, liftSpeed, dt) == Vertical(baseY, false, false)
  {
  }

  /**
   * The buffer after `Physics.OverlapSphereNonAlloc` wrote `hits` into it:
   * the first hits, as many as fit, in order; every later slot as it was.
   */
  function Overlaid(buffer: seq<Option<Collider>>, hits: seq<Collider>): (r: seq<Option<Collider>>)
    ensures |r| == |buffer|
    ensures forall i :: 0 <= i < |buffer| && i < |hits| ==> r[i] == Some(hits[i])
    ensures forall i :: |hits| <= i < |buffer| ==> r[i] == buffer[i]
  {
    seq(|buffer|, i requires 0 <= i < |buffer| => if i < |hits| then Some(hits[i]) else buffer[i])
  }

  /**
   * An entry of an earlier query survives a later query that reports fewer
   * hits: the buffer is never cleared.
   */
  lemma {:induction false} StaleEntrySurvives(buffer: seq<Option<Collider>>, earlier: seq<Collider>, later: seq<Collider>, i: nat)
    requires |later| <= i < |earlier| && i < |buffer|
    ensures Overlaid(Overlaid(buffer, earlier), later)[i] == Some(earlier[i])
  {
  }

  /** `Grabber`. */
  class Grabber {
    /** `_baseY`: the hook's local y when the grabber woke up, its rest height. */
    const baseY: real
    /** `hook.localPosition.y`. */
    var hookY: real
    /** `_moveInput`. */
    var moveInput: Vec2
    var dropping: bool
    var lifting: bool
    var horizontalSpeed: real
    var dropSpeed: NonNegReal
    var liftSpeed: NonNegReal
    var maxDropDepth: NonNegReal
    var swinginess: real
    /** The `PrizeItem`s parented to the hook, in child order. */
    var hookPrizes: seq<PrizeItem>

    ghost predicate Valid()
      reads this
    {
      && !(dropping && lifting)
      && InTravel(Vertical(hookY, dropping, lifting), baseY, maxDropDepth)
    }

    /** `Awake`, with the inspector defaults: the hook at rest, nothing moving. */
    constructor (hookY: real)
      ensures Valid()
      ensures baseY == hookY && this.hookY == hookY
      ensures moveInput == Zero2 && !dropping && !lifting && hookPrizes == []
      ensures horizontalSpeed == 2.0 && dropSpeed == 1.5 && liftSpeed == 1.2
      ensures maxDropDepth == 2.0 && swinginess == 0.5
    {
      baseY := hookY;
      this.hookY := hookY;
      moveInput := Zero2;
      dropping := false;
      lifting := false;
      horizontalSpeed := 2.0;
      dropSpeed := 1.5;
      liftSpeed := 1.2;
      maxDropDepth := 2.0;
      swinginess := 0.5;
      hookPrizes := [];
    }

    /** `SetMove`: stores the intent; nothing moves until the next physics step. */
    method SetMove(move: Vec2)
      requires Valid()
      modifies this`moveInput
      ensures Valid()
      ensures moveInput == move
    {
      moveInput := move;
    }

    method BeginDrop()
      requires Valid()
      modifies this`dropping, this`lifting
      ensures Valid()
      ensures dropping && !lifting
    {
      dropping := true;
      lifting := false;
    }

    method BeginLift()
      requires Valid()
      modifies this`dropping, this`lifting
      ensures Valid()
      ensures !dropping && lifting
    {
      dropping := false;
      lifting := true;
    }

    /**
     * The vertical part of `FixedUpdate`; `dt` is `Time.fixedDeltaTime`, which
     * the engine keeps positive.
     */
    method FixedUpdate(dt: real)
      requires Valid() && dt >= 0.0
      modifies this`hookY, this`lifting
      ensures Valid()
      ensures Vertical(hookY, dropping, lifting)
        == VerticalStep(Vertical(old(hookY), dropping, old(lifting)), baseY, maxDropDepth, dropSpeed, liftSpeed, dt)
    {
      StepStaysInTravel(Vertical(hookY, dropping, lifting), baseY, maxDropDepth, dropSpeed, liftSpeed, dt);
      if dropping {
        hookY := Max(baseY - maxDropDepth, hookY - dropSpeed * dt);
      } else if lifting {
        hookY := Min(baseY, hookY + liftSpeed * dt);
        if hookY == baseY {
          lifting := false;
        }
      }
    }

    /**
     * `OverlapPrizesNonAlloc(buffer)`; `hits` are the colliders the sphere
     * query finds this step.  The hit count is dropped: the buffer comes back
     * with the new hits in front and whatever was there before behind them.
     */
    method OverlapPrizesNonAlloc(buffer: array<Option<Collider>>, hits: seq<Collider>) returns (r: array<Option<Collider>>)
      modifies buffer
      ensures r == buffer
      ensures buffer[..] == Overlaid(old(buffer[..]), hits)
    {
      if buffer.Length == 0 {
        return buffer;
      }
      forall i | 0 <= i < buffer.Length && i < |hits| {
        buffer[i] := Some(hits[i]);
      }
      return buffer;
    }
  }
}
