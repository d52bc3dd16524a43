/**
 * The simple claw: a head that moves within ±`xzBounds` while idle, and a
 * drop routine (open, descend, settle, close and attach, ascend, snap home)
 * that keeps the claw busy until the hook is home again.  The routine, a
 * coroutine in the game, is a `Phase` plus `Resume`, which runs it from one
 * yield to the next.
 */
module SimpleController {
  import opened Common
  import opened SimpleGrabber

  /** The tolerance of the routine's height comparisons. */
  const EPS: real := 0.0005

  /**
   * Where the drop routine is suspended: not running, at the head of the
   * descend loop, waiting out the settle pause (with the time still to
   * wait), or at the head of the ascend loop.
   */
  datatype Phase = Ready | Descending | Settling(remaining: real) | Ascending

  /** The settings the drop routine reads, with the hook's home height. */
  datatype Routine = Routine(homeY: real, dropDistance: real, descendSpeed: NonNegReal, ascendSpeed: NonNegReal, settlePause: real)

  /** `targetY`, where the descent aims. */
  function Target(r: Routine): real
  {
    r.homeY - r.dropDistance
  }

  /**
   * The lowest the hook gets during a routine: the target, or home itself
   * when a negative drop distance puts the target above it.
   */
  function Floor(r: Routine): real
  {
    Min(Target(r), r.homeY)
  }

  /**
   * The routine from the head of its ascend loop: while the hook is more
   * than `EPS` below home, one rise capped at home and a yield; otherwise
   * the snap home that ends it.
   */
  function AscendFrom(y: real, r: Routine, dt: real): (s: (Phase, real))
    requires dt >= 0.0
    ensures s.0 == Ascending || s.0 == Ready
    // the hook never goes above home, and a finished routine leaves it exactly there
    ensures s.1 <= r.homeY
    ensures s.0 == Ready ==> s.1 == r.homeY
    // it never goes down on the way up
    ensures y <= r.homeY ==> y <= s.1
    // the ascent ends exactly when the hook is within EPS of home
    ensures s.0 == Ascending <==> y < r.homeY - EPS
  {
    if y < r.homeY - EPS then
      ProductNonNegative(r.ascendSpeed, dt, r.ascendSpeed * dt);
      (Ascending, Min(y + r.ascendSpeed * dt, r.homeY))
    else (Ready, r.homeY)
  }

  /**
   * One resumption of the drop routine suspended in phase `p` with the hook
   * at local height `y`, in a frame of `dt` seconds: the phase it is
   * suspended in next, the hook's new height, and whether it closed the
   * grabber and tried to attach on the way.
   */
  function Resumed(p: Phase, y: real, r: Routine, dt: real): (s: (Phase, real, bool))
    requires p != Ready && dt >= 0.0
    // the grabber closes once per routine: when the routine leaves the descent or the pause
    ensures s.2 <==> !p.Ascending? && (s.0.Ascending? || s.0.Ready?)
    // an ascending routine never goes back down
    ensures p.Ascending? ==> s.0.Ascending? || s.0.Ready?
    // the hook stays between the floor and home, and a finished routine leaves it at home
    ensures Floor(r) <= y <= r.homeY ==> Floor(r) <= s.1 <= r.homeY
    ensures s.0 == Ready ==> s.1 == r.homeY
    // the descent stops within EPS of its target
    ensures p.Descending? && !s.0.Descending? ==> y <= Target(r) + EPS
    ensures s.0.Settling? ==> s.0.remaining > 0.0
  {
    match p
    case Descending =>
      if y > Target(r) + EPS then
        ProductNonNegative(r.descendSpeed, dt, r.descendSpeed * dt);
        (Descending, Max(y - r.descendSpeed * dt, Target(r)), false)
      else if r.settlePause > 0.0 then (Settling(r.settlePause), y, false)
      else
        var a := AscendFrom(y, r, dt);
        (a.0, a.1, true)
    case Settling(left) =>
      if left > dt then (Settling(left - dt), y, false)
      else
        var a := AscendFrom(y, r, dt);
        (a.0, a.1, true)
    case Ascending =>
      var a := AscendFrom(y, r, dt);
      (a.0, a.1, false)
  }

  /**
   * One axis of `HandleMove`: the head position `p` moved by `d`, then, with
   * clamping on, clamped to [-bound, bound].
   */
  function MovedAxis(p: real, d: real, bound: real, clamp: bool): (q: real)
    // clamping keeps the head inside the bounds
    ensures clamp && bound >= 0.0 ==> -bound <= q <= bound
    // a move that stays inside the bounds is taken as it is
    ensures -bound <= p + d <= bound ==> q == p + d
    // without clamping every move is taken as it is
    ensures !clamp ==> q == p + d
  {
    var moved := p + d;
    if clamp then Clamp(moved, -bound, bound) else moved
  }

  /** `ClawSimpleController`. */
  class ClawSimpleController {
    const moveSpeed: real
    const xzBounds: Vec2
    const clampInsideBounds: bool
    const hookRb: Body?
    const grabber: ClawGrabberSimple
    const dropDistance: real
    const descendSpeed: NonNegReal
    const ascendSpeed: NonNegReal
    const settlePause: real
    /** `_hookHomeY`: the hook's local y when the controller woke up. */
    const homeY: real

    /** `transform.position` x and z: the head. */
    var headX: real
    var headZ: real
    /** The hook's horizontal offset from the head (the head taken as unrotated and unscaled). */
    var hookOffset: Vec2
    /** `hook.localPosition.y`. */
    var hookY: real
    /** `_busy`. */
    var busy: bool
    /** Where the drop routine is suspended. */
    var phase: Phase
    /** Routines started, and attach attempts made. */
    ghost var drops: nat
    ghost var attaches: nat

    function Settings(): Routine
    {
      Routine(homeY, dropDistance, descendSpeed, ascendSpeed, settlePause)
    }

    ghost predicate Valid()
      reads this, grabber
    {
      && grabber.Valid()
      && (busy <==> !phase.Ready?)
      && (phase.Ready? ==> hookY == homeY && attaches == drops)
      && (phase.Descending? || phase.Settling? ==>
            && grabber.open && grabber.held == null
            && attaches + 1 == drops)
      && (phase.Settling? ==> phase.remaining > 0.0)
      && (phase.Ascending? ==> !grabber.open && attaches == drops)
      && Floor(Settings()) <= hookY <= homeY
    }

    /** `Awake`: the hook's height is home, and the hook body is made kinematic without gravity. */
    constructor (grabber: ClawGrabberSimple, hookRb: Body?, hookY: real, headX: real, headZ: real, hookOffset: Vec2,
                 moveSpeed: real, xzBounds: Vec2, clampInsideBounds: bool,
                 dropDistance: real, descendSpeed: NonNegReal, ascendSpeed: NonNegReal, settlePause: real)
      requires grabber.Valid()
      modifies hookRb
      ensures Valid()
      ensures this.grabber == grabber && this.hookRb == hookRb && homeY == hookY && this.hookY == hookY
      ensures this.headX == headX && this.headZ == headZ && this.hookOffset == hookOffset
      ensures this.moveSpeed == moveSpeed && this.xzBounds == xzBounds && this.clampInsideBounds == clampInsideBounds
      ensures this.dropDistance == dropDistance && this.descendSpeed == descendSpeed
      ensures this.ascendSpeed == ascendSpeed && this.settlePause == settlePause
      ensures !busy && phase == Ready && drops == 0 && attaches == 0
      ensures hookRb != null ==> !hookRb.useGravity && hookRb.isKinematic
    {
      this.grabber := grabber;
      this.hookRb := hookRb;
      homeY := hookY;
      this.hookY := hookY;
      this.headX := headX;
      this.headZ := headZ;
      this.hookOffset := hookOffset;
      this.moveSpeed := moveSpeed;
      this.xzBounds := xzBounds;
      this.clampInsideBounds := clampInsideBounds;
      this.dropDistance := dropDistance;
      this.descendSpeed := descendSpeed;
      this.ascendSpeed := ascendSpeed;
      this.settlePause := settlePause;
      busy := false;
      phase := Ready;
      drops := 0;
      attaches := 0;
      new;
      if hookRb != null {
        hookRb.useGravity := false;
        hookRb.isKinematic := true;
      }
    }

    /** `HookAtHome`: the hook within `EPS` of its home height. */
    predicate HookAtHome()
      reads this
    {
      Abs(hookY - homeY) <= EPS
    }

    /**
     * `Update`'s `lockMovement`: busy, or the hook away from home.  An idle
     * claw always has its hook home, so the lock is the busy flag alone.
     */
    function LockMovement(): (b: bool)
      reads this, grabber
      requires Valid()
      ensures b <==> busy
    {
      busy || !HookAtHome()
    }

    /**
     * `Update` for one frame of `dt` seconds: `dropPressed` is the drop key
     * going down this frame, `dir` the normalised input direction, `cands`
     * what the grabber's overlap query finds should the routine start and
     * close in this same frame.
     */
    method Update(dropPressed: bool, dir: Vec2, dt: real, cands: seq<Candidate>)
      requires Valid() && dt >= 0.0
      modifies this`headX, this`headZ, this`hookOffset, this`busy, this`phase, this`hookY, this`drops, this`attaches
      modifies grabber`open, grabber`held, grabber.held, NearestBody(cands)
      ensures Valid()
      // the hook ends every frame under the head
      ensures hookOffset == Zero2
      // a busy claw does not move and starts nothing
      ensures old(busy) ==>
        && headX == old(headX) && headZ == old(headZ)
        && phase == old(phase) && hookY == old(hookY) && drops == old(drops)
        && grabber.open == old(grabber.open) && grabber.held == old(grabber.held)
      // an idle claw moves its head, and starts a routine exactly when the key goes down
      ensures !old(busy) ==>
        && headX == MovedAxis(old(headX), dir.x * moveSpeed * dt, xzBounds.x, clampInsideBounds)
        && headZ == MovedAxis(old(headZ), dir.y * moveSpeed * dt, xzBounds.y, clampInsideBounds)
        && (drops == old(drops) + 1 <==> dropPressed)
        && (!dropPressed ==> phase == Ready && grabber.open == old(grabber.open) && grabber.held == old(grabber.held))
        && (dropPressed ==>
              var s := Resumed(Descending, homeY, Settings(), dt);
              && phase == s.0 && hookY == s.1 && attaches == old(attaches) + (if s.2 then 1 else 0)
              && (s.2 ==> !grabber.open && grabber.held == Chosen(cands, grabber.hookRb, grabber.maxCarryMass))
              && (s.2 ==> var b := Chosen(cands, grabber.hookRb, grabber.maxCarryMass);
                              b != null ==>
                                && b.velocity == Zero3 && b.angularVelocity == Zero3
                                && !b.useGravity && b.isKinematic && b.parentedToHook && b.mass == old(b.mass))
              && (!s.2 ==> grabber.open && grabber.held == null))
      // without a routine started no body is touched; with one, only the bodies it lets go of or takes
      ensures old(busy) || !dropPressed ==>
        && (old(grabber.held) != null ==> unchanged(old(grabber.held)))
        && forall b :: b in NearestBody(cands) ==> unchanged(b)
      ensures forall b :: b in NearestBody(cands) && b != grabber.held && b != old(grabber.held) ==> unchanged(b)
      // starting a routine lets go of a body held since the last drop, unless this frame takes it again
      ensures var h := old(grabber.held);
        !old(busy) && dropPressed && h != null && grabber.held != h ==>
          && !h.isKinematic && h.useGravity && !h.parentedToHook
          && h.velocity == old(h.velocity) && h.angularVelocity == old(h.angularVelocity) && h.mass == old(h.mass)
    {
      var lock := LockMovement();
      if !lock {
        HandleMove(dir, dt);
      } else {
        KeepHookUnderHeadXZ();
      }
      if dropPressed && !lock {
        DropRoutine(dt, cands);
      }
    }

    /** `HandleMove` with the normalised input direction `dir`. */
    method HandleMove(dir: Vec2, dt: real)
      modifies this`headX, this`headZ, this`hookOffset
      ensures headX == MovedAxis(old(headX), dir.x * moveSpeed * dt, xzBounds.x, clampInsideBounds)
      ensures headZ == MovedAxis(old(headZ), dir.y * moveSpeed * dt, xzBounds.y, clampInsideBounds)
      ensures hookOffset == Zero2
    {
      headX := headX + dir.x * moveSpeed * dt;
      headZ := headZ + dir.y * moveSpeed * dt;
      if clampInsideBounds {
        headX := Clamp(headX, -xzBounds.x, xzBounds.x);
        headZ := Clamp(headZ, -xzBounds.y, xzBounds.y);
      }
      KeepHookUnderHeadXZ();
    }

    /** `KeepHookUnderHeadXZ`: the hook's x and z become the head's; its height stays. */
    method KeepHookUnderHeadXZ()
      modifies this`hookOffset
      ensures hookOffset == Zero2
    {
      hookOffset := Zero2;
    }

    /**
     * `StartCoroutine(DropRoutine())`: busy, the grabber opened (dropping
     * anything held), then the routine runs up to its first yield.
     */
    method DropRoutine(dt: real, cands: seq<Candidate>)
      requires Valid() && !busy && dt >= 0.0
      modifies this`busy, this`phase, this`hookY, this`hookOffset, this`drops, this`attaches
      modifies grabber`open, grabber`held, grabber.held, NearestBody(cands)
      ensures Valid()
      ensures busy == !phase.Ready? && drops == old(drops) + 1
      ensures var s := Resumed(Descending, old(hookY), Settings(), dt);
        && phase == s.0 && hookY == s.1 && attaches == old(attaches) + (if s.2 then 1 else 0)
        // the grabber is left open and empty, unless the routine closes in this same frame
        && (s.2 ==> !grabber.open && grabber.held == Chosen(cands, grabber.hookRb, grabber.maxCarryMass))
        && (s.2 ==> var b := Chosen(cands, grabber.hookRb, grabber.maxCarryMass);
          b != null ==>
            && b.velocity == Zero3 && b.angularVelocity == Zero3
            && !b.useGravity && b.isKinematic && b.parentedToHook && b.mass == old(b.mass))
        && (!s.2 ==> grabber.open && grabber.held == null)
      // no other body is touched
      ensures forall b :: b in NearestBody(cands) && b != grabber.held && b != old(grabber.held) ==> unchanged(b)
      // a body held since the last drop is let go with its physics back, unless this frame takes it again
      ensures var h := old(grabber.held);
        h != null && grabber.held != h ==>
          && !h.isKinematic && h.useGravity && !h.parentedToHook
          && h.velocity == old(h.velocity) && h.angularVelocity == old(h.angularVelocity) && h.mass == old(h.mass)
      ensures hookOffset == old(hookOffset) || hookOffset == Zero2
    {
      busy := true;
      drops := drops + 1;
      grabber.SetOpen(true);
      phase := Descending;
      Resume(dt, cands);
    }

    /**
     * The routine resumed at its yield point in a frame of `dt` seconds, up
     * to its next yield or its end.  `cands` is what the grabber's overlap
     * query finds, should the routine close in this frame.
     */
    method Resume(dt: real, cands: seq<Candidate>)
      requires Valid() && busy && dt >= 0.0
      modifies this`busy, this`phase, this`hookY, this`hookOffset, this`attaches
      modifies grabber`open, grabber`held, NearestBody(cands)
      ensures Valid()
      ensures var s := Resumed(old(phase), old(hookY), Settings(), dt);
        && phase == s.0 && hookY == s.1
        && attaches == old(attaches) + (if s.2 then 1 else 0)
        // closing happens on the way from the descent to the ascent, with one attach attempt
        && (s.2 ==> !grabber.open && grabber.held == Chosen(cands, grabber.hookRb, grabber.maxCarryMass))
        && (s.2 ==> var b := Chosen(cands, grabber.hookRb, grabber.maxCarryMass);
          b != null ==>
            && b.velocity == Zero3 && b.angularVelocity == Zero3
            && !b.useGravity && b.isKinematic && b.parentedToHook && b.mass == old(b.mass))
        && (!s.2 ==> grabber.open == old(grabber.open) && grabber.held == old(grabber.held))
      // no body but the one it ends up holding is touched
      ensures forall b :: b in NearestBody(cands) && b != grabber.held ==> unchanged(b)
      ensures hookOffset == old(hookOffset) || hookOffset == Zero2
    {
      match phase
      case Descending =>
        if hookY > homeY - dropDistance + EPS {
          ProductNonNegative(descendSpeed, dt, descendSpeed * dt);
          hookY := Max(hookY - descendSpeed * dt, homeY - dropDistance);
          KeepHookUnderHeadXZ();
          return;
        }
        if settlePause > 0.0 {
          phase := Settling(settlePause);
          return;
        }
        CloseAndAttach(cands);
        Ascend(dt);
      case Settling(left) =>
        if left > dt {
          phase := Settling(left - dt);
          return;
        }
        CloseAndAttach(cands);
        Ascend(dt);
      case Ascending =>
        Ascend(dt);
    }

    /** Closing the grabber and its one attach attempt, between the descent and the ascent. */
    method CloseAndAttach(cands: seq<Candidate>)
      requires Valid() && (phase.Descending? || phase.Settling?)
      modifies this`phase, this`attaches, grabber`open, grabber`held, NearestBody(cands)
      ensures Valid()
      ensures phase == Ascending && attaches == old(attaches) + 1
      ensures !grabber.open && grabber.held == Chosen(cands, grabber.hookRb, grabber.maxCarryMass)
      // the body taken is frozen on the hook
      ensures var b := Chosen(cands, grabber.hookRb, grabber.maxCarryMass);
        b != null ==>
          && b.velocity == Zero3 && b.angularVelocity == Zero3
          && !b.useGravity && b.isKinematic && b.parentedToHook && b.mass == old(b.mass)
      ensures forall b :: b in NearestBody(cands) && b != grabber.held ==> unchanged(b)
    {
      grabber.SetOpen(false);
      grabber.TryAttachClosest(cands);
      attaches := attaches + 1;
      phase := Ascending;
    }

    /** The ascend loop from its head: one rise and a yield, or the snap home that ends the routine. */
    method Ascend(dt: real)
      requires Valid() && phase == Ascending && dt >= 0.0
      modifies this`busy, this`phase, this`hookY, this`hookOffset
      ensures Valid()
      ensures (phase, hookY) == AscendFrom(old(hookY), Settings(), dt)
      ensures hookOffset == old(hookOffset) || hookOffset == Zero2
    {
      if hookY < homeY - EPS {
        ProductNonNegative(ascendSpeed, dt, ascendSpeed * dt);
        hookY := Min(hookY + ascendSpeed * dt, homeY);
        KeepHookUnderHeadXZ();
        return;
      }
      hookY := homeY;
      busy := false;
      phase := Ready;
    }
  }
}
