/**
 * The pseudo-random generator behind every pick: the 48-bit linear
 * congruential generator of `java.util.Random`, with `nextInt(bound)`.
 * The same seed gives the same stream of draws on every run.
 */
module JavaRandom {

  const Multiplier: int := 0x5_DEEC_E66D
  const Addend: int := 0xB
  /** The generator keeps 48 bits of state. */
  const Modulus: int := 0x1_0000_0000_0000
  /** `next(31)` yields 31 bits: values below 2^31, the positive `int` range. */
  const IntRange: int := 0x8000_0000

  predicate IsState(s: int) { 0 <= s < Modulus }

  /** One draw: the value returned and the state after it. */
  datatype Draw = Draw(value: int, state: int)

  /** `new Random(seed)`: the low 48 bits of the two's-complement seed, XOR the multiplier. */
  function InitialState(seed: int): (s: int)
    ensures IsState(s)
  {
    var low := seed % Modulus;
    ((low as bv48) ^ (Multiplier as bv48)) as int
  }

  /** `next(31)`: one step of the congruence, returning the top 31 of the 48 bits. */
  function Step31(state: int): (d: Draw)
    requires IsState(state)
    ensures 0 <= d.value < IntRange && IsState(d.state)
  {
    var next := (state * Multiplier + Addend) % Modulus;
    Draw(next / 0x2_0000, next)
  }

  /** For positive `n`, this holds exactly when `n & (n - 1)` is zero. */
  predicate IsPowerOfTwo(n: int)
    decreases n
  {
    n == 1 || (n > 1 && n % 2 == 0 && IsPowerOfTwo(n / 2))
  }

  /** `(int)((bound * (long) r) >> 31)`, the power-of-two branch of `nextInt`. */
  function ScaleDown(bound: int, r: int): (v: int)
    requires bound > 0 && 0 <= r < IntRange
    ensures 0 <= v < bound
  {
    assert bound * r < bound * IntRange by { MultiplyStrict(bound, r, IntRange); }
    assert 0 <= bound * r;
    DivideBelow(bound * r, bound, IntRange);
    (bound * r) / IntRange
  }

  lemma MultiplyStrict(b: int, x: int, y: int)
    requires b > 0 && x < y
    ensures b * x < b * y
  {
  }

  lemma DivideBelow(p: int, b: int, d: int)
    requires 0 <= p < b * d && d > 0
    ensures 0 <= p / d < b
  {
  }

  /**
   * The rejection loop of `nextInt` for a bound that is not a power of two:
   * `u` is rejected while `u - u % bound + (bound - 1)` overflows a 32-bit
   * `int`, and another 31 bits are drawn. `fuel` only bounds the recursion.
   */
  function Retry(u: int, state: int, bound: int, fuel: nat): (d: Draw)
    requires 0 <= u < IntRange && IsState(state) && bound > 0
    ensures 0 <= d.value < bound && IsState(d.state)
    decreases fuel
  {
    if u - u % bound + (bound - 1) < IntRange || fuel == 0 then Draw(u % bound, state)
    else
      var next := Step31(state);
      Retry(next.value, next.state, bound, fuel - 1)
  }

  /** `nextInt(bound)` from a given state: a value in [0, bound) and the state after it. */
  function DrawInt(state: int, bound: int): (d: Draw)
    requires IsState(state) && bound > 0
    ensures 0 <= d.value < bound && IsState(d.state)
  {
    var first := Step31(state);
    if IsPowerOfTwo(bound) then Draw(ScaleDown(bound, first.value), first.state)
    else Retry(first.value, first.state, bound, Modulus)
  }

  /** A bound of one leaves no choice: the draw is always 0. */
  lemma DrawIntOfOne(state: int)
    requires IsState(state)
    ensures DrawInt(state, 1).value == 0
  {
  }

  /** A `java.util.Random` instance: its only field is the 48-bit state. */
  class Random {
    var state: int

    ghost predicate Valid()
      reads this
    {
      IsState(state)
    }

    /** `new Random(seed)`. */
    constructor (seed: int)
      ensures Valid() && state == InitialState(seed)
    {
      state := InitialState(seed);
    }

    /** `next(31)`. */
    method Next31() returns (r: int)
      requires Valid()
      modifies this
      ensures Valid() && Draw(r, state) == Step31(old(state))
    {
      var next := (state * Multiplier + Addend) % Modulus;
      state := next;
      r := next / 0x2_0000;
    }

    /** `nextInt(bound)`: advances the state and returns a value in [0, bound). */
    method NextInt(bound: int) returns (r: int)
      requires Valid() && bound > 0
      modifies this
      ensures Valid() && Draw(r, state) == DrawInt(old(state), bound)
      ensures 0 <= r < bound
    {
      r := Next31();
      var m := bound - 1;
      if IsPowerOfTwo(bound) {
        r := ScaleDown(bound, r);
        return;
      }
      var u := r;
      r := u % bound;
      var fuel: nat := Modulus;
      while u - r + m >= IntRange && fuel > 0
        invariant Valid() && 0 <= u < IntRange && r == u % bound
        invariant Retry(u, state, bound, fuel) == DrawInt(old(state), bound)
        decreases fuel
      {
        u := Next31();
        r := u % bound;
        fuel := fuel - 1;
      }
    }
  }
}
