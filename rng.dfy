/** The game's pseudo-random byte generator: a linear recurrence modulo 269
    on a 32-bit signed seed, read back through a conversion to `u8`. */
module Rng {
  import opened CInt

  const Modulus: int := 269

  /** The recurrence stays inside 32-bit signed arithmetic from this seed:
      neither `seed * 13` nor `seed * 13 + 17` overflows. */
  predicate SeedOk(seed: int) {
    IsI32(seed) && IsI32(seed * 13) && IsI32(seed * 13 + 17)
  }

  /** The seed after one step of `rand_byte`, with C's truncating remainder. */
  function NextSeed(seed: int): (r: int)
    requires SeedOk(seed)
    ensures -Modulus < r < Modulus
    ensures seed >= -1 ==> 0 <= r < Modulus && r == (seed * 13 + 17) % Modulus
    ensures seed < -1 ==> r <= 0 && -r == (-(seed * 13 + 17)) % Modulus
    ensures SeedOk(r)
  {
    CRem(seed * 13 + 17, Modulus)
  }

  /** The byte `rand_byte` returns for a new seed: its low eight bits, that
      is the seed taken modulo 256. A seed in (-269, 269) gives the seed
      itself, or the seed minus 256, plus 256 or plus 512. */
  function ByteOf(seed: int): (b: int)
    ensures 0 <= b < 256
    ensures 0 <= seed < 256 ==> b == seed
    ensures 256 <= seed < Modulus ==> b == seed - 256
    ensures -256 <= seed < 0 ==> b == seed + 256
    ensures -Modulus < seed < -256 ==> b == seed + 512
  {
    U8(seed)
  }

  /** The seeds after n steps from `seed`. */
  function SeedAfter(seed: int, n: nat): (r: int)
    requires SeedOk(seed)
    ensures SeedOk(r)
  {
    if n == 0 then seed else NextSeed(SeedAfter(seed, n - 1))
  }

  /** Steps compose: a steps and then b more are a + b steps. */
  lemma {:induction false} SeedAfterAdd(seed: int, a: nat, b: nat)
    requires SeedOk(seed)
    ensures SeedAfter(SeedAfter(seed, a), b) == SeedAfter(seed, a + b)
    decreases b
  {
    if b > 0 {
      SeedAfterAdd(seed, a, b - 1);
    }
  }

  /** The recurrence has exactly two fixed points: from 21 or from -248
      the generator yields the same seed for ever. */
  lemma FixedSeeds(seed: int)
    requires SeedOk(seed)
    ensures NextSeed(seed) == seed <==> seed == 21 || seed == -248
  {
    if NextSeed(seed) == seed {
      if seed >= -1 {
        var v := seed * 13 + 17;
        var q := v / 269;
        assert v == 269 * q + v % 269;
        assert v % 269 == seed;
        assert 12 * seed + 17 == 269 * q;
        assert seed == 269 * (157 * q - 7 * seed - 10) + 21;
      } else {
        var u := -seed;
        var v := u * 13 - 17;
        var q := v / 269;
        assert v == 269 * q + v % 269;
        assert v % 269 == u;
        assert 12 * u - 17 == 269 * q;
        assert u == 269 * (157 * q - 7 * u + 9) + 248;
      }
    }
  }

  /** A seed that is fixed stays fixed however many steps are taken. */
  lemma {:induction false} SeedAfterFixed(seed: int, n: nat)
    requires SeedOk(seed) && NextSeed(seed) == seed
    ensures SeedAfter(seed, n) == seed
  {
    if n > 0 {
      SeedAfterFixed(seed, n - 1);
    }
  }

  /** From a non-negative seed every later seed lies in [0, 269), so every
      byte the generator yields is the seed itself or the seed minus 256. */
  lemma {:induction false} SeedAfterInRange(seed: int, n: nat)
    requires SeedOk(seed) && seed >= -1 && n > 0
    ensures 0 <= SeedAfter(seed, n) < Modulus
  {
    if n > 1 {
      SeedAfterInRange(seed, n - 1);
    }
  }
}
