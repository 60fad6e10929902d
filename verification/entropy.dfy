/** The 32-byte seed the contract keeps for its random draws, the one-byte perturbation
    applied after every draw, and the abstract generator behind `rng.gen_range(0, high)`. */
module Entropy {
  import opened Types

  const SEED_LENGTH: nat := 32

  type Seed = s: seq<Byte> | |s| == 32 witness seq(32, _ => 0)

  const ZERO_SEED: Seed := [0, 0, 0, 0, 0, 0, 0, 0, 0, 0, 0, 0, 0, 0, 0, 0, 0, 0, 0, 0, 0, 0, 0, 0, 0, 0, 0, 0, 0, 0, 0, 0]

  /** `StdRng::from_seed(seed).gen_range(0, high)`: some value determined by the seed and the
      bound, below the bound whenever the bound is positive. Nothing else about the generator
      is assumed. */
  type Sampler = f: (Seed, U32) -> U32 | forall s: Seed, h: U32 :: 0 < h ==> f(s, h) < h
    witness (s: Seed, h: U32) => 0

  /** `random_seed[0] = random_seed[0].wrapping_add(1)`. */
  function Bump(seed: Seed): (r: Seed)
    ensures r[0] == (seed[0] as int + 1) % 256
    ensures forall k :: 1 <= k < SEED_LENGTH ==> r[k] == seed[k]
  {
    seed[0 := (seed[0] as int + 1) % 256]
  }

  /** The seed after `n` draws in the same block. */
  function BumpTimes(seed: Seed, n: nat): Seed {
    if n == 0 then seed else Bump(BumpTimes(seed, n - 1))
  }

  /** Only byte 0 moves, and it moves by `n` modulo 256. */
  lemma {:induction false} BumpTimesShape(seed: Seed, n: nat)
    ensures BumpTimes(seed, n)[0] == (seed[0] as int + n) % 256
    ensures forall k :: 1 <= k < SEED_LENGTH ==> BumpTimes(seed, n)[k] == seed[k]
  {
    if n > 0 {
      BumpTimesShape(seed, n - 1);
    }
  }

  /** Bumping first and then `n` times is bumping `n + 1` times. */
  lemma {:induction false} BumpTimesShift(seed: Seed, n: nat)
    ensures BumpTimes(Bump(seed), n) == BumpTimes(seed, n + 1)
  {
    if n > 0 {
      BumpTimesShift(seed, n - 1);
    }
  }

  /** Draws `i` and `j` of one block start from the same generator seed exactly when their
      distance is a multiple of 256: the perturbation keeps 256 consecutive draws apart and
      then cycles. */
  lemma SameBlockSeedsRepeat(seed: Seed, i: nat, j: nat)
    requires i <= j
    ensures BumpTimes(seed, i) == BumpTimes(seed, j) <==> (j - i) % 256 == 0
  {
    BumpTimesShape(seed, i);
    BumpTimesShape(seed, j);
    var a := BumpTimes(seed, i);
    var b := BumpTimes(seed, j);
    if (j - i) % 256 == 0 {
      assert (seed[0] as int + j) % 256 == (seed[0] as int + i) % 256 by {
        assert seed[0] as int + j == seed[0] as int + i + 256 * ((j - i) / 256);
      }
      assert a == b;
    } else {
      assert (seed[0] as int + j) % 256 != (seed[0] as int + i) % 256 by {
        assert seed[0] as int + j == seed[0] as int + i + (j - i);
      }
      assert a[0] != b[0];
    }
  }
}
