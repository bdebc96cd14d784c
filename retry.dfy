/** The shape both retry loops share (`_get_with_retries` in
    collectors/discourse_collector.py and `get_trend` in
    collectors/trends_collector.py): the back-off starts at one second and
    doubles after every failed attempt, and what a run did is recorded as a
    value. */
module Retry {
  import opened Wrappers

  /** What one run of a retry loop did: what it returned (None after giving
      up), how many attempts it made and the sleeps it took, in order. */
  datatype Attempts<B> = Attempts(result: Option<B>, requests: nat, sleeps: seq<real>)

  /** `backoff *= 2`. */
  function Double(backoff: real): real {
    backoff * 2.0
  }

  /** The back-off after `n` doublings. */
  function Backoff(start: real, n: nat): real
    decreases n
  {
    if n == 0 then start else Backoff(Double(start), n - 1)
  }

  function Pow2(n: nat): real {
    if n == 0 then 1.0 else 2.0 * Pow2(n - 1)
  }

  /** Doubling n times multiplies by 2^n. */
  lemma {:induction false} BackoffIsPow2(start: real, n: nat)
    ensures Backoff(start, n) == start * Pow2(n)
    decreases n
  {
    if n > 0 {
      BackoffIsPow2(Double(start), n - 1);
      assert start * 2.0 * Pow2(n - 1) == start * Pow2(n);
    }
  }

  /** The random draw of `random.random()`: in [0, 1). */
  ghost predicate UnitDraw(r: real) {
    0.0 <= r < 1.0
  }

  /** The back-off lengthened by a random fraction `r` of itself. */
  function Jittered(backoff: real, r: real): real {
    backoff + r * backoff
  }

  /** A jittered back-off lies in [backoff, 2 * backoff). */
  lemma JitteredBounds(backoff: real, r: real)
    requires UnitDraw(r) && backoff > 0.0
    ensures backoff <= Jittered(backoff, r) < 2.0 * backoff
  {
    assert 0.0 <= r * backoff < backoff;
  }
}
