/** The publisher's backoff: an exponential base, a per-dispatch jitter, and a clamp, in milliseconds. */
module RetryDelay {
  import opened Base

  datatype DispatcherConfig = DispatcherConfig(
    batchSize: nat, maxInFlight: nat, claimLeaseSeconds: nat, retryInitial: nat, retryMax: nat)

  /** The bounds checked when the configuration is loaded. */
  predicate Accepted(c: DispatcherConfig) {
    && 1 <= c.batchSize <= 1_000
    && 1 <= c.maxInFlight <= 1_024
    && 10 <= c.claimLeaseSeconds <= 600
    && 100 <= c.retryInitial <= 60_000
    && c.retryInitial <= c.retryMax <= 3_600_000
  }

  /** A configuration outside the bounds is refused as a whole. */
  method LoadConfig(c: DispatcherConfig) returns (r: Option<DispatcherConfig>)
    ensures r.Some? <==>
            && 1 <= c.batchSize <= 1_000 && 1 <= c.maxInFlight <= 1_024 && 10 <= c.claimLeaseSeconds <= 600
            && 100 <= c.retryInitial <= 60_000 && c.retryInitial <= c.retryMax <= 3_600_000
    ensures r.Some? ==> r.value == c && Accepted(c)
  {
    if !Accepted(c) {
      return None;
    }
    return Some(c);
  }

  const U64_MAX: nat := 0xFFFF_FFFF_FFFF_FFFF
  const I64_MAX: int := 0x7FFF_FFFF_FFFF_FFFF

  function Min(a: int, b: int): int {
    if a <= b then a else b
  }

  function Clamp(x: int, low: int, high: int): int
    requires low <= high
  {
    if x < low then low else if x > high then high else x
  }

  /** Division that truncates toward zero. */
  function Truncated(a: int, b: int): int
    requires b > 0
  {
    if a >= 0 then a / b else -((-a) / b)
  }

  function Saturated(x: int): int {
    if x > I64_MAX then I64_MAX else if x < -I64_MAX - 1 then -I64_MAX - 1 else x
  }

  function PowerOfTwo(n: nat): nat {
    if n == 0 then 1 else 2 * PowerOfTwo(n - 1)
  }

  function Exponent(attempts: nat): nat {
    if attempts < 6 then attempts else 6
  }

  function BaseDelay(c: DispatcherConfig, attempts: nat): int {
    Min(Min(c.retryInitial * PowerOfTwo(Exponent(attempts)), U64_MAX), c.retryMax)
  }

  function JitterPercent(seed: nat): int {
    seed % 41 - 20
  }

  function Jittered(millis: int, percent: int): int {
    millis + Truncated(Saturated(millis * percent), 100)
  }

  /** `seed` is the last byte of the dispatch id. */
  function Delay(c: DispatcherConfig, attempts: nat, seed: nat): (r: int)
    requires Accepted(c)
    ensures c.retryInitial * 4 / 5 <= r <= c.retryMax
  {
    Clamp(Jittered(BaseDelay(c, attempts), JitterPercent(seed)), c.retryInitial * 4 / 5, c.retryMax)
  }

  lemma {:induction false} PowerGrows(a: nat, b: nat)
    requires a <= b
    ensures 1 <= PowerOfTwo(a) <= PowerOfTwo(b)
  {
    if b > 0 {
      if a < b {
        PowerGrows(a, b - 1);
      } else {
        PowerGrows(a - 1, b - 1);
      }
    }
  }

  /** The base starts at the initial delay, never exceeds the maximum, and does not shrink. */
  lemma BaseGrows(c: DispatcherConfig, a: nat, b: nat)
    requires Accepted(c) && a <= b
    ensures c.retryInitial <= BaseDelay(c, a) <= BaseDelay(c, b) <= c.retryMax
  {
    var x, y := Exponent(a), Exponent(b);
    PowerGrows(x, y);
    Scales(c.retryInitial, 1, PowerOfTwo(x));
    Scales(c.retryInitial, PowerOfTwo(x), PowerOfTwo(y));
  }

  lemma Scales(m: nat, a: int, b: int)
    requires a <= b
    ensures m * a <= m * b
  {
  }

  lemma Shares(x: nat, e: nat, d: nat)
    requires e <= 20 * d
    ensures x / 100 <= (x + e) / 100 <= x / 100 + d
  {
  }

  /** The jitter as a share of the delay, up or down; nothing saturates. */
  lemma JitterIsShare(m: nat, percent: int)
    requires m <= 3_600_000 && -20 <= percent <= 20
    ensures var q := if percent < 0 then -percent else percent;
            && 0 <= m * q <= 20 * m
            && Jittered(m, percent) == if percent < 0 then m - m * q / 100 else m + m * q / 100
  {
    var q := if percent < 0 then -percent else percent;
    Scales(m, 0, q);
    Scales(m, q, 20);
    assert m * percent == if percent < 0 then -(m * q) else m * q;
  }

  /** A jitter of at most a fifth keeps the order of delays and loses at most a fifth. */
  lemma JitterKeepsOrder(m: nat, n: nat, percent: int)
    requires m <= n <= 3_600_000 && -20 <= percent <= 20
    ensures Jittered(m, percent) <= Jittered(n, percent)
    ensures m * 4 / 5 <= Jittered(m, percent)
  {
    hide Jittered;
    var q := if percent < 0 then -percent else percent;
    JitterIsShare(m, percent);
    JitterIsShare(n, percent);
    Differences(m, n, q);
    Shares(m * q, (n - m) * q, n - m);
  }

  lemma Differences(m: nat, n: nat, q: nat)
    requires m <= n && q <= 20
    ensures n * q == m * q + (n - m) * q && 0 <= (n - m) * q <= 20 * (n - m)
  {
    Scales(n - m, 0, q);
    Scales(n - m, q, 20);
    assert n * q == (m + (n - m)) * q;
  }

  /** For a fixed dispatch the delay never shrinks as attempts fail, and the lower clamp never bites. */
  lemma DelayGrows(c: DispatcherConfig, a: nat, b: nat, seed: nat)
    requires Accepted(c) && a <= b
    ensures Delay(c, a, seed) <= Delay(c, b, seed)
    ensures Delay(c, a, seed) == Min(Jittered(BaseDelay(c, a), JitterPercent(seed)), c.retryMax)
  {
    BaseGrows(c, a, b);
    JitterKeepsOrder(BaseDelay(c, a), BaseDelay(c, b), JitterPercent(seed));
  }

  /** The base starts at the initial delay and doubles up to the maximum, for six failures. */
  lemma BaseDoubles(c: DispatcherConfig, attempts: nat)
    requires Accepted(c)
    ensures BaseDelay(c, 0) == c.retryInitial
    ensures BaseDelay(c, attempts + 1) ==
            if attempts < 6 then Min(2 * BaseDelay(c, attempts), c.retryMax) else BaseDelay(c, attempts)
  {
    if attempts < 6 {
      var p := PowerOfTwo(attempts);
      PowerGrows(attempts, 6);
      assert PowerOfTwo(6) == 64;
      Scales(c.retryInitial, p, 64);
      assert c.retryInitial * (2 * p) == 2 * (c.retryInitial * p);
    }
  }

  /** Every whole percentage from -20 to 20, and no other, is the jitter of some dispatch. */
  lemma JitterRange(percent: int)
    ensures -20 <= percent <= 20 <==> exists seed: nat :: seed < 256 && JitterPercent(seed) == percent
    ensures forall seed: nat :: JitterPercent(seed + 41) == JitterPercent(seed)
    ensures forall seed: nat :: seed < 41 ==> JitterPercent(seed) == seed - 20
  {
    if -20 <= percent <= 20 {
      assert JitterPercent(percent + 20) == percent;
    }
  }
}
