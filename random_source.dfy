/**
 * The one seeded `System.Random` of a claw machine, seen as the infinite
 * sequence of values its `NextDouble()` returns.  The seed only chooses the
 * stream; every consumer reads it in order through `pos`.
 */
module RandomSource {

  /** The values `NextDouble()` returns, one per call, each in [0, 1). */
  type Draws = s: nat -> real | forall i: nat :: 0.0 <= s(i) < 1.0
    witness (i: nat) => 0.0

  class Random {
    /** What the seed determines: the n-th draw is `stream(n)`. */
    const stream: Draws
    /** How many draws have been taken so far. */
    var pos: nat

    constructor (stream: Draws)
      ensures this.stream == stream && pos == 0
    {
      this.stream := stream;
      pos := 0;
    }

    /** `NextDouble()`: the next draw of the stream. */
    method NextDouble() returns (d: real)
      modifies this`pos
      ensures d == stream(old(pos)) && pos == old(pos) + 1
      ensures 0.0 <= d < 1.0
    {
      d := stream(pos);
      pos := pos + 1;
    }
  }
}
