/** Small value types shared by every part of the claw-machine model. */
module Common {

  /** A reference that may be null, or an optional result. */
  datatype Option<+T> = None | Some(value: T)

  /** The exceptions the game code throws, as values. */
  datatype Exception = ArgumentOutOfRange | ArgumentNull | InvalidOperation

  /** What a call that may throw produced: a normal return or a thrown exception. */
  datatype Outcome<+T> = Returned(value: T) | Threw(exception: Exception)

  datatype Vec2 = Vec2(x: real, y: real)
  datatype Vec3 = Vec3(x: real, y: real, z: real)

  const Zero2: Vec2 := Vec2(0.0, 0.0)
  const Zero3: Vec3 := Vec3(0.0, 0.0, 0.0)

  /** Inspector `[Min(0f)]` fields. */
  type NonNegReal = r: real | r >= 0.0

  /** Inspector `[Range(0f, 1f)]` fields. */
  type Fraction = r: real | 0.0 <= r <= 1.0

  function Max(a: real, b: real): real { if a >= b then a else b }

  function Min(a: real, b: real): real { if a <= b then a else b }

  function Abs(r: real): real { if r < 0.0 then -r else r }

  /** The product of two non-negative reals is non-negative. */
  lemma {:induction false} ProductNonNegative(a: real, b: real, ab: real)
    requires a >= 0.0 && b >= 0.0 && ab == a * b
    ensures ab >= 0.0
  {
  }

  /** `Mathf.Clamp(v, lo, hi)`: the lower bound is tested first. */
  function Clamp(v: real, lo: real, hi: real): real
  {
    if v < lo then lo else if v > hi then hi else v
  }

  /** `Mathf.Clamp01`. */
  function Clamp01(v: real): (r: real)
    ensures 0.0 <= r <= 1.0
    ensures 0.0 <= v <= 1.0 ==> r == v
  {
    Clamp(v, 0.0, 1.0)
  }

  /** `Mathf.Max(0, n)` on integers. */
  function ClampToNat(n: int): (r: nat)
    ensures n >= 0 ==> r == n
  {
    if n < 0 then 0 else n
  }
}
