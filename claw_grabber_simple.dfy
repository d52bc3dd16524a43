/**
 * The simple hook grabber: an open/closed gate and at most one carried body,
 * taken from the single nearest candidate of an overlap query.
 */
module SimpleGrabber {
  import opened Common

  /** A `Rigidbody`, with the settings the grabber changes. */
  class Body {
    var mass: real
    var isKinematic: bool
    var useGravity: bool
    var velocity: Vec3
    var angularVelocity: Vec3
    /** Whether its transform is parented to the hook. */
    var parentedToHook: bool

    constructor (mass: real)
      ensures this.mass == mass && !isKinematic && useGravity
      ensures velocity == Zero3 && angularVelocity == Zero3 && !parentedToHook
    {
      this.mass := mass;
      isKinematic := false;
      useGravity := true;
      velocity := Zero3;
      angularVelocity := Zero3;
      parentedToHook := false;
    }
  }

  /**
   * One collider of the overlap query: the squared distance from the hook to
   * its closest point, and its attached rigidbody, if any.
   */
  datatype Candidate = Candidate(sqrDistance: real, body: Body?)

  /**
   * The index `OrderBy(distance).First()` picks: a nearest candidate, and,
   * because the ordering is stable, the first of several equally near ones.
   */
  function ClosestIndex(cands: seq<Candidate>): (k: nat)
    requires |cands| > 0
    ensures k < |cands|
    // no candidate is nearer
    ensures forall j :: 0 <= j < |cands| ==> cands[k].sqrDistance <= cands[j].sqrDistance
    // every earlier candidate is strictly farther
    ensures forall j :: 0 <= j < k ==> cands[j].sqrDistance > cands[k].sqrDistance
    decreases |cands|
  {
    if |cands| == 1 then 0
    else
      var k := ClosestIndex(cands[..|cands| - 1]);
      if cands[|cands| - 1].sqrDistance < cands[k].sqrDistance then |cands| - 1 else k
  }

  /** The only body `TryAttachClosest` may touch: the nearest candidate's, if it has one. */
  function NearestBody(cands: seq<Candidate>): set<Body>
  {
    if |cands| > 0 && cands[ClosestIndex(cands)].body != null then {cands[ClosestIndex(cands)].body} else {}
  }

  /**
   * The body `TryAttachClosest` takes once closed and empty-handed: the
   * nearest candidate's, unless it has none, is the hook's own, or is heavier
   * than `maxCarryMass`; no other candidate is tried.
   */
  function Chosen(cands: seq<Candidate>, hookRb: Body, maxCarryMass: real): (b: Body?)
    reads NearestBody(cands)
    // whatever is taken is a nearest candidate's body, not the hook's, and not too heavy
    ensures b != null ==>
      && b in NearestBody(cands) && b != hookRb && b.mass <= maxCarryMass
      && exists k :: 0 <= k < |cands| && cands[k].body == b
           && forall j :: 0 <= j < |cands| ==> cands[k].sqrDistance <= cands[j].sqrDistance
    // the nearest candidate's body is taken whenever it qualifies, a mass equal to the limit included
    ensures |cands| > 0 ==>
      var c := cands[ClosestIndex(cands)].body;
      c != null && c != hookRb && c.mass <= maxCarryMass ==> b == c
  {
    if |cands| == 0 then null
    else
      var c := cands[ClosestIndex(cands)].body;
      if c != null && c != hookRb && c.mass <= maxCarryMass then c else null
  }

  /** `ClawGrabberSimple`. */
  class ClawGrabberSimple {
    /** `_hookRb`, the hook's own body. */
    const hookRb: Body
    var grabRadius: real
    var maxCarryMass: real
    var open: bool
    /** `_heldRb` (and `_heldTf`, its transform). */
    var held: Body?

    ghost predicate Valid()
      reads this
    {
      held != hookRb
    }

    /** `Awake`, with the inspector defaults: open and holding nothing. */
    constructor (hookRb: Body)
      ensures Valid()
      ensures this.hookRb == hookRb && open && held == null
      ensures grabRadius == 0.45 && maxCarryMass == 5.0
    {
      this.hookRb := hookRb;
      grabRadius := 0.45;
      maxCarryMass := 5.0;
      open := true;
      held := null;
    }

    function IsOpen(): (b: bool)
      reads this
      ensures b <==> open
    {
      open
    }

    function IsHolding(): (b: bool)
      reads this
      ensures b <==> held != null
    {
      held != null
    }

    /** `SetOpen`: opening while holding releases the prize; closing never changes what is held. */
    method SetOpen(o: bool)
      requires Valid()
      modifies this`open, this`held, held
      ensures Valid()
      ensures open == o
      ensures !o ==> held == old(held) && (old(held) != null ==> unchanged(old(held)))
      ensures var h := old(held);
        o && h != null ==>
          && held == null
          && !h.isKinematic && h.useGravity && !h.parentedToHook
          && h.velocity == old(h.velocity) && h.angularVelocity == old(h.angularVelocity) && h.mass == old(h.mass)
      ensures o && old(held) == null ==> held == null
    {
      open := o;
      if open && IsHolding() {
        Release();
      }
    }

    /**
     * `TryAttachClosest`, with `cands` the overlap query's colliders: only when
     * closed and empty-handed; only the nearest candidate is considered, and it
     * is taken if it has a body that is not the hook's and is no heavier than
     * `maxCarryMass`.
     */
    method TryAttachClosest(cands: seq<Candidate>)
      requires Valid()
      modifies this`held, NearestBody(cands)
      ensures Valid()
      ensures var b := Chosen(cands, hookRb, maxCarryMass);
        var attach := !open && old(held) == null && b != null;
        && (!attach ==> held == old(held) && forall c :: c in NearestBody(cands) ==> unchanged(c))
        && (attach ==>
              && held == b
              && b.velocity == Zero3 && b.angularVelocity == Zero3
              && !b.useGravity && b.isKinematic && b.parentedToHook
              && b.mass == old(b.mass))
    {
      if open || IsHolding() {
        return;
      }
      if |cands| == 0 {
        return;
      }
      var best := cands[ClosestIndex(cands)];
      var rb := best.body;
      if rb == null {
        return;
      }
      if rb == hookRb {
        return;
      }
      if rb.mass > maxCarryMass {
        return;
      }
      held := rb;
      rb.velocity := Zero3;
      rb.angularVelocity := Zero3;
      rb.useGravity := false;
      rb.isKinematic := true;
      rb.parentedToHook := true;
    }

    /** `Release`: unparent the held body and give it its physics back. */
    method Release()
      requires Valid()
      modifies this`held, held
      ensures Valid()
      ensures held == null
      ensures var h := old(held);
        h != null ==>
          && !h.isKinematic && h.useGravity && !h.parentedToHook
          && h.velocity == old(h.velocity) && h.angularVelocity == old(h.angularVelocity) && h.mass == old(h.mass)
    {
      if !IsHolding() {
        return;
      }
      held.parentedToHook := false;
      held.isKinematic := false;
      held.useGravity := true;
      held := null;
    }
  }
}
