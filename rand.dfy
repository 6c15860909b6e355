/** The game's only source of randomness, `Math.random()`.

    The stream of numbers it returns is an input to the model: a `Random`
    is built from an arbitrary function `draws` from call number to a real
    in [0, 1), and every call consumes the next number. Whatever is proved
    about a caller therefore holds for every possible sequence of rolls. */
module Rand {

  /** A value `Math.random()` can return: a real in [0, 1). */
  type Unit = r: real | 0.0 <= r < 1.0 witness 0.0

  /** `Math.floor(r * n)` for a roll `r`: an index below `n`. */
  function ScaledFloor(r: Unit, n: nat): (k: int)
    requires n > 0
    ensures 0 <= k < n
    ensures k as real <= r * n as real < k as real + 1.0
  {
    ScaledBelow(r, n);
    (r * n as real).Floor
  }

  lemma {:induction false} ScaledBelow(r: Unit, n: nat)
    requires n > 0
    ensures 0.0 <= r * n as real < n as real
  {
    var x := n as real;
    assert 0.0 <= r * x by { assert r >= 0.0 && x > 0.0; }
    assert x - r * x == (1.0 - r) * x;
    assert (1.0 - r) * x > 0.0;
  }

  class Random {
    /** The numbers the successive calls return. */
    const draws: nat -> Unit
    /** How many numbers have been drawn so far. */
    var used: nat

    constructor (draws: nat -> Unit)
      ensures this.draws == draws && used == 0
    {
      this.draws := draws;
      used := 0;
    }

    /** `Math.random()`. */
    method Next() returns (r: Unit)
      modifies this
      ensures r == draws(old(used)) && used == old(used) + 1
    {
      r := draws(used);
      used := used + 1;
    }

    /** `Math.floor(Math.random() * n)`: a uniformly chosen index below `n`. */
    method Below(n: nat) returns (k: nat)
      requires n > 0
      modifies this
      ensures k < n && k == ScaledFloor(draws(old(used)), n)
      ensures used == old(used) + 1
    {
      var r := Next();
      k := ScaledFloor(r, n);
    }
  }
}
