/** Retry delays: exponential growth up to a ceiling, plus a deterministic fuzz. */
module Backoff {
  import opened Types

  const SECOND: Duration := 1_000_000_000
  const DEFAULT_MIN_DELAY: Duration := 10 * SECOND
  const DEFAULT_MAX_DELAY: Duration := 600 * SECOND
  const BACKOFF_FACTOR: real := 1.1

  function Growth(attempts: nat): (g: real)
    ensures g >= 1.0
  {
    if attempts == 0 then 1.0 else BACKOFF_FACTOR * Growth(attempts - 1)
  }

  /** Growth compounds: by a tenth for each attempt. */
  lemma GrowthCompounds(m: nat, n: nat)
    ensures Growth(m + n) == Growth(m) * Growth(n)
    ensures Growth(0) == 1.0 && Growth(1) == 1.1
  {
    GrowthProduct(m, n);
    assert Growth(1) == BACKOFF_FACTOR * Growth(0);
  }

  function Product(g: real, h: real): real {
    g * h
  }

  lemma {:induction false} GrowthProduct(m: nat, n: nat)
    ensures Growth(m + n) == Product(Growth(m), Growth(n))
  {
    hide Product;
    ProductStep(Growth(m), if n > 0 then Growth(n - 1) else 1.0);
    if n > 0 {
      GrowthProduct(m, n - 1);
    }
  }

  lemma ProductStep(g: real, h: real)
    ensures Product(g, 1.0) == g
    ensures Product(g, BACKOFF_FACTOR * h) == BACKOFF_FACTOR * Product(g, h)
  {
  }

  function MinDelay(sub: Subscription): (d: Duration)
    ensures d > 0
  {
    if sub.minBackoff.Some? && sub.minBackoff.value > 0 then sub.minBackoff.value else DEFAULT_MIN_DELAY
  }

  function MaxDelay(sub: Subscription): (d: Duration)
    ensures d > 0
  {
    if sub.maxBackoff.Some? && sub.maxBackoff.value > 0 then sub.maxBackoff.value else DEFAULT_MAX_DELAY
  }

  function Scale(g: real, d: Duration): real {
    g * d as real
  }

  /** The delay before it is cut to a whole number of nanoseconds. */
  function ExactDelay(sub: Subscription, attempts: nat): real {
    var grown := Scale(Growth(attempts), MinDelay(sub));
    if grown > MaxDelay(sub) as real then MaxDelay(sub) as real else grown
  }

  datatype Delay = Delay(nominal: Duration, fuzzed: Duration)

  function NextDelayFor(env: Env, subId: Id, sub: Subscription, attempts: nat): Delay {
    var delay := ExactDelay(sub, attempts);
    var fuzz := if delay > 0.5 * SECOND as real then env.checksum(subId, attempts) % SECOND else 0;
    Delay(delay.Floor, delay.Floor + fuzz)
  }

  /** How long after a hand-out that raised the count to `attempts` the row stays leased. */
  function Lease(env: Env, subId: Id, sub: Subscription, attempts: nat): Duration {
    NextDelayFor(env, subId, sub, attempts).fuzzed
  }

  lemma {:induction false} GrowthMonotone(a: nat, b: nat)
    requires a <= b
    ensures Growth(a) <= Growth(b)
  {
    if a < b {
      GrowthMonotone(a, b - 1);
    }
  }

  lemma ScaleMonotone(a: real, b: real, d: Duration)
    requires a <= b && d >= 0
    ensures Scale(a, d) <= Scale(b, d)
    ensures Scale(1.0, d) == d as real
  {
    assert (b - a) * d as real >= 0.0;
  }

  lemma ExactMonotone(sub: Subscription, a: nat, b: nat)
    requires a <= b
    ensures ExactDelay(sub, a) <= ExactDelay(sub, b)
  {
    hide Scale;
    GrowthMonotone(a, b);
    ScaleMonotone(Growth(a), Growth(b), MinDelay(sub));
  }

  /** More attempts never shorten the nominal delay. */
  lemma DelayMonotone(env: Env, subId: Id, sub: Subscription, a: nat, b: nat)
    requires a <= b
    ensures NextDelayFor(env, subId, sub, a).nominal <= NextDelayFor(env, subId, sub, b).nominal
  {
    ExactMonotone(sub, a, b);
  }

  lemma ExactBounds(sub: Subscription, attempts: nat)
    ensures MinDelay(sub) as real <= ExactDelay(sub, attempts) || MaxDelay(sub) as real <= ExactDelay(sub, attempts)
    ensures ExactDelay(sub, attempts) <= MaxDelay(sub) as real
  {
    hide Scale;
    ScaleMonotone(1.0, Growth(attempts), MinDelay(sub));
  }

  /** The nominal delay stays between min(min, max) and max, and the fuzz adds less than a second,
      and nothing at all to delays of half a second or less. */
  lemma DelayBounds(env: Env, subId: Id, sub: Subscription, attempts: nat)
    ensures var d := NextDelayFor(env, subId, sub, attempts);
      && (MinDelay(sub) <= d.nominal || MaxDelay(sub) <= d.nominal)
      && d.nominal <= MaxDelay(sub)
      && d.nominal <= d.fuzzed < d.nominal + SECOND
      && (ExactDelay(sub, attempts) <= 0.5 * SECOND as real ==> d.fuzzed == d.nominal)
  {
    ExactBounds(sub, attempts);
  }

  /** Bernoulli's inequality for the growth factor. */
  lemma {:induction false} Bernoulli(n: nat)
    ensures Growth(n) >= 1.0 + n as real / 10.0
  {
    if n > 0 {
      Bernoulli(n - 1);
    }
  }

  lemma Saturation(g: real, n: nat, d: Duration, x: Duration)
    requires d > 0 && g >= 1.0 + n as real / 10.0 && n * d >= 10 * (x - d)
    ensures Scale(g, d) >= x as real
  {
    var r := n as real;
    var low := 1.0 + r / 10.0;
    var m := d as real;
    assert g * m >= low * m by {
      ScaleMonotone(low, g, d);
    }
    assert low * m == m + (r * m) / 10.0;
    assert r * m == (n * d) as real;
  }

  /** From 10·(max/min − 1) attempts on, the delay is the ceiling. */
  lemma DelaySaturates(env: Env, subId: Id, sub: Subscription, n: nat)
    requires n * MinDelay(sub) >= 10 * (MaxDelay(sub) - MinDelay(sub))
    ensures NextDelayFor(env, subId, sub, n).nominal == MaxDelay(sub)
  {
    hide Scale, Growth;
    Bernoulli(n);
    Saturation(Growth(n), n, MinDelay(sub), MaxDelay(sub));
  }

  /** The delay after the first attempt is the minimum, as the comment on `NextDelayFor` has it, exactly
      when the ceiling is the minimum, or the minimum is so short that a tenth of it rounds to nothing. */
  lemma FirstLease(env: Env, subId: Id, sub: Subscription)
    ensures NextDelayFor(env, subId, sub, 1).nominal == MinDelay(sub) <==>
      MaxDelay(sub) == MinDelay(sub) || (MinDelay(sub) < 10 && MinDelay(sub) <= MaxDelay(sub))
    ensures MinDelay(sub) == DEFAULT_MIN_DELAY && MaxDelay(sub) == DEFAULT_MAX_DELAY ==>
      NextDelayFor(env, subId, sub, 1).nominal == 11 * SECOND
  {
    assert Growth(1) == BACKOFF_FACTOR * Growth(0);
  }

  /** The delay in terms of the settings: the minimum grown by a tenth for each attempt, but no more than the maximum,
      in whole nanoseconds; over half a second, a checksum adds less than a second to it. A setting that is missing
      or not positive counts as 10 seconds or 10 minutes. */
  lemma LeaseLaw(env: Env, subId: Id, sub: Subscription, attempts: nat, min: Duration, max: Duration)
    requires min == if sub.minBackoff == None || sub.minBackoff.value <= 0 then 10_000_000_000 else sub.minBackoff.value
    requires max == if sub.maxBackoff == None || sub.maxBackoff.value <= 0 then 600_000_000_000 else sub.maxBackoff.value
    ensures var exact := Growth(attempts) * min as real;
      var cut := if exact > max as real then max as real else exact;
      && NextDelayFor(env, subId, sub, attempts).nominal == cut.Floor
      && NextDelayFor(env, subId, sub, attempts).fuzzed ==
         cut.Floor + if cut > 500_000_000.0 then env.checksum(subId, attempts) % 1_000_000_000 else 0
  {
    hide Growth, Scale;
    assert Scale(Growth(attempts), min) == Growth(attempts) * min as real by {
      ScaleIsProduct(Growth(attempts), min);
    }
  }

  lemma ScaleIsProduct(g: real, d: Duration)
    ensures Scale(g, d) == g * d as real
  {
  }
}
