/** Helpers shared by both game scripts: an optional value (JavaScript's
    `null`) and the `Math.floor(Math.random() * n)` idiom both scripts use to
    draw a random index and the survival time limit. */
module Common {

  datatype Option<+T> = None | Some(value: T)

  /** One draw of `Math.random()`: a number in the half-open interval [0, 1). */
  predicate IsRandom(u: real) {
    0.0 <= u < 1.0
  }

  /** `Math.floor(u * k)` for a draw `u` of `Math.random()`: always a valid
      index into a list of `k` elements. */
  function RandomIndex(u: real, k: nat): (i: nat)
    requires IsRandom(u) && k > 0
    ensures i < k
    ensures i as real <= u * k as real < i as real + 1.0
  {
    var x := u * k as real;
    assert 0.0 <= x < k as real by { ScaleBelow(u, k); }
    x.Floor
  }

  lemma ScaleBelow(u: real, k: nat)
    requires IsRandom(u) && k > 0
    ensures 0.0 <= u * k as real < k as real
  {
  }

  /** Every index is drawn by some `Math.random()` value: the draw `i / k`
      yields `i`, so no element of a list is unreachable. */
  lemma {:induction false} RandomIndexCovers(i: nat, k: nat)
    requires i < k
    ensures IsRandom(i as real / k as real)
    ensures RandomIndex(i as real / k as real, k) == i
  {
    var u := i as real / k as real;
    assert u * k as real == i as real;
  }

  /** Bounds of the survival time, in seconds: three to five minutes. */
  const MIN_LIMIT: int := 3 * 60
  const MAX_LIMIT: int := 5 * 60

  /** `Math.floor(Math.random() * (max - min + 1)) + min`: the survival time
      drawn at the start of a game lies in [180, 300]. */
  function TimeLimit(u: real): (limit: int)
    requires IsRandom(u)
    ensures MIN_LIMIT <= limit <= MAX_LIMIT
  {
    RandomIndex(u, MAX_LIMIT - MIN_LIMIT + 1) + MIN_LIMIT
  }

  /** Every limit in [180, 300] can be drawn. */
  lemma {:induction false} TimeLimitCovers(limit: int)
    requires MIN_LIMIT <= limit <= MAX_LIMIT
    ensures var u := (limit - MIN_LIMIT) as real / (MAX_LIMIT - MIN_LIMIT + 1) as real;
      IsRandom(u) && TimeLimit(u) == limit
  {
    RandomIndexCovers(limit - MIN_LIMIT, MAX_LIMIT - MIN_LIMIT + 1);
  }
}
