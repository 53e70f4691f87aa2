/** The seeded generator's randomness: an arbitrary stream, drawn from in a fixed order.
    Whatever is proved of a generator holds for every stream, hence for every seed. */
module Random {
  type Fraction = x: real | 0.0 <= x < 1.0

  class Rng {
    const stream: nat -> nat
    const fractions: nat -> Fraction
    var drawn: nat

    constructor (stream: nat -> nat, fractions: nat -> Fraction)
      ensures this.stream == stream && this.fractions == fractions && drawn == 0
    {
      this.stream, this.fractions, drawn := stream, fractions, 0;
    }

    /** `rng.randrange(lo, hi)` */
    method RandRange(lo: int, hi: int) returns (x: int)
      requires lo < hi
      modifies this
      ensures lo <= x < hi
    {
      x := lo + stream(drawn) % (hi - lo);
      drawn := drawn + 1;
    }

    /** `rng.choice(options)` */
    method Choice<T>(options: seq<T>) returns (x: T)
      requires options != []
      modifies this
      ensures x in options
    {
      var i := RandRange(0, |options|);
      x := options[i];
    }

    /** `rng.random()`: any real in [0, 1). */
    method Uniform() returns (x: real)
      modifies this
      ensures 0.0 <= x < 1.0
    {
      x := fractions(drawn);
      drawn := drawn + 1;
    }

    /** `rng.sample(population, k=k)`: k members at k different positions. */
    method Sample<T>(population: seq<T>, k: nat) returns (chosen: seq<T>)
      requires k <= |population|
      modifies this
      ensures |chosen| == k
      ensures multiset(chosen) <= multiset(population)
      ensures forall c | c in chosen :: c in population
    {
      chosen := [];
      var pool := population;
      while |chosen| < k
        invariant |chosen| <= k && |pool| == |population| - |chosen|
        invariant multiset(chosen) + multiset(pool) == multiset(population)
      {
        var i := RandRange(0, |pool|);
        assert pool == pool[..i] + [pool[i]] + pool[i + 1..];
        chosen := chosen + [pool[i]];
        pool := pool[..i] + pool[i + 1..];
      }
      forall c | c in chosen
        ensures c in population
      {
        assert c in multiset(population);
      }
    }
  }
}
