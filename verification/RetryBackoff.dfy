/** The retry delay of the outbox worker: capped exponential growth plus a bounded jitter. */
module RetryBackoff {

  function Pow2(n: nat): (p: nat)
    ensures p >= 1
  {
    if n == 0 then 1 else 2 * Pow2(n - 1)
  }

  function Min(a: int, b: int): int { if a < b then a else b }
  function Max(a: int, b: int): int { if a > b then a else b }

  /** Settings validation guarantees 1 <= base <= maximum before a worker starts. */
  function Exponential(base: int, maximum: int, attempt: nat): int
    requires attempt >= 1
  {
    Min(maximum, base * Pow2(attempt - 1))
  }

  /** `digest` stands for the first two bytes of the SHA-256 digest, an arbitrary number. */
  function RetryDelay(base: int, maximum: int, attempt: nat, digest: nat): int
    requires 1 <= base <= maximum && attempt >= 1
  {
    var exponential := Exponential(base, maximum, attempt);
    Pow2Scaled(base, attempt);
    var jitterLimit := Max(1, Min(base, exponential / 4));
    var jitter := digest % (jitterLimit + 1);
    Min(maximum, exponential + jitter)
  }

  lemma Pow2Scaled(base: int, attempt: nat)
    requires base >= 1 && attempt >= 1
    ensures base * Pow2(attempt - 1) >= base
  {
    assert base * Pow2(attempt - 1) == base + base * (Pow2(attempt - 1) - 1);
  }

  lemma Doubling(base: int, attempt: nat)
    requires base >= 1 && attempt >= 1
    ensures base * Pow2(attempt) == 2 * (base * Pow2(attempt - 1))
  {
    assert Pow2(attempt) == 2 * Pow2(attempt - 1);
  }

  lemma DelayBounds(base: int, maximum: int, attempt: nat, digest: nat)
    requires 1 <= base <= maximum && attempt >= 1
    ensures base <= RetryDelay(base, maximum, attempt, digest) <= maximum
    ensures Exponential(base, maximum, attempt) <= RetryDelay(base, maximum, attempt, digest)
    ensures RetryDelay(base, maximum, attempt, digest) <= Exponential(base, maximum, attempt) + base
  {
    Pow2Scaled(base, attempt);
  }

  /** From the exponential upwards by at most the base and a quarter of it, but always a second; never past the maximum. */
  predicate Attainable(base: int, maximum: int, scaled: int, delay: int) {
    if scaled >= maximum then delay == maximum
    else scaled <= delay <= maximum && (delay <= scaled + 1 || (delay <= scaled + base && 4 * (delay - scaled) <= scaled))
  }

  lemma DelayAttainable(base: int, maximum: int, attempt: nat, digest: nat)
    requires 1 <= base <= maximum && attempt >= 1
    ensures Attainable(base, maximum, base * Pow2(attempt - 1), RetryDelay(base, maximum, attempt, digest))
  {
    Pow2Scaled(base, attempt);
  }

  lemma JitterFor(base: int, maximum: int, scaled: int, exponential: int, delay: int)
    requires 1 <= base <= maximum && base <= scaled && exponential == Min(maximum, scaled)
    requires Attainable(base, maximum, scaled, delay)
    ensures 0 <= delay - exponential <= Max(1, Min(base, exponential / 4)) && delay <= maximum
  {
  }

  lemma SmallRemainder(n: nat, d: nat)
    requires n < d
    ensures n % d == n
  {
  }

  lemma AttainableDrawn(base: int, maximum: int, attempt: nat, delay: int)
    requires 1 <= base <= maximum && attempt >= 1 && Attainable(base, maximum, base * Pow2(attempt - 1), delay)
    ensures exists digest: nat :: RetryDelay(base, maximum, attempt, digest) == delay
  {
    Pow2Scaled(base, attempt);
    var exponential := Exponential(base, maximum, attempt);
    JitterFor(base, maximum, base * Pow2(attempt - 1), exponential, delay);
    var digest: nat := delay - exponential;
    var limit: nat := Max(1, Min(base, exponential / 4));
    SmallRemainder(digest, limit + 1);
    assert RetryDelay(base, maximum, attempt, digest) == delay;
  }

  /** The delays an attempt can draw, over all digests, are exactly these. */
  lemma DelaysExactly(base: int, maximum: int, attempt: nat, delay: int)
    requires 1 <= base <= maximum && attempt >= 1
    ensures (exists digest: nat :: RetryDelay(base, maximum, attempt, digest) == delay) <==>
            Attainable(base, maximum, base * Pow2(attempt - 1), delay)
  {
    if digest: nat :| RetryDelay(base, maximum, attempt, digest) == delay {
      DelayAttainable(base, maximum, attempt, digest);
    }
    if Attainable(base, maximum, base * Pow2(attempt - 1), delay) {
      AttainableDrawn(base, maximum, attempt, delay);
    }
  }

  /** The jitter of one attempt never overtakes the next attempt, whatever the two digests are. */
  lemma DelayNeverShrinks(base: int, maximum: int, attempt: nat, digest: nat, nextDigest: nat)
    requires 1 <= base <= maximum && attempt >= 1
    ensures RetryDelay(base, maximum, attempt, digest) <= RetryDelay(base, maximum, attempt + 1, nextDigest)
  {
    Pow2Scaled(base, attempt);
    Doubling(base, attempt);
    DelayBounds(base, maximum, attempt + 1, nextDigest);
  }

  lemma {:induction false} DelayMonotone(base: int, maximum: int, early: nat, late: nat, digests: nat -> nat)
    requires 1 <= base <= maximum && 1 <= early <= late
    ensures RetryDelay(base, maximum, early, digests(early)) <= RetryDelay(base, maximum, late, digests(late))
  {
    if early < late {
      DelayMonotone(base, maximum, early, late - 1, digests);
      DelayNeverShrinks(base, maximum, late - 1, digests(late - 1), digests(late));
    }
  }

  /** Once the exponential reaches the cap, every later delay is exactly the cap. */
  lemma {:induction false} DelaySaturates(base: int, maximum: int, attempt: nat, later: nat, digest: nat)
    requires 1 <= base <= maximum && 1 <= attempt <= later
    requires base * Pow2(attempt - 1) >= maximum
    ensures RetryDelay(base, maximum, later, digest) == maximum
    decreases later
  {
    if attempt < later {
      Doubling(base, later - 1);
      DelaySaturates(base, maximum, attempt, later - 1, digest);
      SaturationIsUpward(base, maximum, attempt, later);
    }
  }

  lemma {:induction false} SaturationIsUpward(base: int, maximum: int, attempt: nat, later: nat)
    requires 1 <= base && 1 <= attempt <= later
    requires base * Pow2(attempt - 1) >= maximum
    ensures base * Pow2(later - 1) >= maximum
  {
    if attempt < later {
      SaturationIsUpward(base, maximum, attempt, later - 1);
      Doubling(base, later - 1);
      Pow2Scaled(base, later - 1);
    }
  }
}
