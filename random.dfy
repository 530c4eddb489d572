/**
 * The random choices of the game, taken from a stream of draws given from
 * outside: std::rand(), the mt19937 engines behind the dice and randomInt
 * all become the next value of the stream, mapped to its range the way
 * the source maps it.
 */
module Random {
  /** A source of random values: the given stream, read in order. */
  class Dice {
    const stream: nat -> nat
    /** How many values have been read so far. */
    var drawn: nat

    constructor (stream: nat -> nat)
      ensures this.stream == stream && drawn == 0
    {
      this.stream := stream;
      drawn := 0;
    }

    method Next() returns (v: nat)
      modifies this
      ensures v == stream(old(drawn)) && drawn == old(drawn) + 1
    {
      v := stream(drawn);
      drawn := drawn + 1;
    }
  }

  /** uniform_int_distribution(0, 100) followed by `% 100 + 1`: a roll in [1, 100] where 0 and 100 both give 1. */
  function Roll(v: nat): (r: nat)
    ensures 1 <= r <= 100
  {
    v % 101 % 100 + 1
  }

  /** randomInt(lo, hi): uniform_int_distribution(lo, hi), defined only for lo <= hi. */
  function RandomInt(lo: int, hi: int, v: nat): (r: int)
    requires lo <= hi
    ensures lo <= r <= hi
  {
    lo + v % (hi - lo + 1)
  }

  /** A coin flip: std::rand() % 2 or randomInt(0, 1); true means 1. */
  function Coin(v: nat): bool {
    v % 2 == 1
  }

  /** The dice: a roll of at most `threshold` is a hit (60 for attackers, 70 for defenders). */
  predicate Hit(v: nat, threshold: nat) {
    Roll(v) <= threshold
  }

  /** How many of the n draws from `start` on are hits. */
  function Hits(stream: nat -> nat, start: nat, n: nat, threshold: nat): (h: nat)
    ensures h <= n
    ensures threshold >= 100 ==> h == n
    decreases n
  {
    if n == 0 then 0
    else Hits(stream, start, n - 1, threshold) + (if Hit(stream(start + n - 1), threshold) then 1 else 0)
  }

  /** The simulateAttack loops: one draw per army, counting the hits. */
  method CountHits(dice: Dice, n: int, threshold: nat) returns (hits: nat)
    modifies dice
    ensures n <= 0 ==> hits == 0 && dice.drawn == old(dice.drawn)
    ensures n > 0 ==> hits == Hits(dice.stream, old(dice.drawn), n, threshold) && dice.drawn == old(dice.drawn) + n
  {
    hits := 0;
    var i := 1;
    while i <= n
      invariant 1 <= i && (n > 0 ==> i <= n + 1) && (n <= 0 ==> i == 1)
      invariant dice.drawn == old(dice.drawn) + i - 1
      invariant hits == Hits(dice.stream, old(dice.drawn), i - 1, threshold)
    {
      var v := dice.Next();
      if Roll(v) <= threshold {
        hits := hits + 1;
      }
      i := i + 1;
    }
  }
}
