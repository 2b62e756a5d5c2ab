/** internal/client/backoff.go: the growing, jittered delay between two attempts.
    Durations are whole nanoseconds, as Go's time.Duration; the arithmetic in
    between is over the reals. */
module BackoffSpec {
  const SECOND := 1_000_000_000
  const BACKOFF_MIN := 1 * SECOND
  const BACKOFF_MAX := 60 * SECOND
  const BACKOFF_FACTOR := 2.0
  const BACKOFF_JITTER := 0.2

  datatype Settings = Settings(min: int, max: int, factor: real, jitter: real) {
    predicate Positive() {
      min > 0 && max > 0 && factor > 0.0 && jitter > 0.0
    }
  }

  const DEFAULTS := Settings(BACKOFF_MIN, BACKOFF_MAX, BACKOFF_FACTOR, BACKOFF_JITTER)

  function Pow(base: real, n: nat): real {
    if n == 0 then 1.0 else base * Pow(base, n - 1)
  }

  /** The delay before jitter, uncapped. */
  function Raw(c: Settings, attempt: nat): real {
    c.min as real * Pow(c.factor, attempt)
  }

  function Capped(c: Settings, x: real): real {
    if x > c.max as real then c.max as real else x
  }

  /** The attempt counter after one call of Next. */
  function Advance(c: Settings, attempt: nat): nat {
    if Raw(c, attempt) > c.max as real then attempt else attempt + 1
  }

  /** Go's conversion from float64 to an integer type. */
  function Truncate(x: real): int {
    if x >= 0.0 then x.Floor else -((-x).Floor)
  }

  function Delay(c: Settings, base: real, random: real): int {
    Truncate(base * (1.0 + c.jitter * (2.0 * random - 1.0)))
  }

  /** The attempt counter before the k-th call since Reset, from 0. */
  function Attempt(c: Settings, k: nat): nat {
    if k == 0 then 0 else Advance(c, Attempt(c, k - 1))
  }

  lemma {:induction false} PowPositive(base: real, n: nat)
    requires base > 0.0
    ensures Pow(base, n) > 0.0
    decreases n
  {
    if n > 0 {
      PowPositive(base, n - 1);
    }
  }

  lemma {:induction false} RawGrows(c: Settings, i: nat, j: nat)
    requires c.Positive() && c.factor >= 1.0 && i <= j
    ensures Raw(c, i) <= Raw(c, j)
    decreases j - i
  {
    if i < j {
      RawGrows(c, i, j - 1);
      PowPositive(c.factor, j - 1);
      var p := Pow(c.factor, j - 1);
      hide *;
      NoFewer(c.factor, p);
      NoLess(c.min as real, p, c.factor * p);
    }
  }

  lemma {:induction false} RawShrinks(c: Settings, n: nat)
    requires c.Positive() && c.factor < 1.0
    ensures Raw(c, n) <= c.min as real
    decreases n
  {
    if n > 0 {
      RawShrinks(c, n - 1);
      PowPositive(c.factor, n - 1);
      var p := Pow(c.factor, n - 1);
      NoMore(c.factor, p);
      NoLess(c.min as real, c.factor * p, p);
    }
  }

  lemma NoMore(f: real, p: real)
    requires f <= 1.0 && p >= 0.0
    ensures f * p <= p
  {
    assert (1.0 - f) * p >= 0.0;
    assert p - f * p == (1.0 - f) * p;
  }

  lemma NoFewer(f: real, p: real)
    requires f >= 1.0 && p >= 0.0
    ensures p <= f * p
  {
    assert (f - 1.0) * p >= 0.0;
    assert f * p - p == (f - 1.0) * p;
  }

  lemma NoLess(m: real, x: real, y: real)
    requires m >= 0.0 && x <= y
    ensures m * x <= m * y
  {
    assert m * (y - x) >= 0.0;
    assert m * (y - x) == m * y - m * x;
  }

  lemma Less(m: real, x: real, y: real)
    requires m > 0.0 && x < y
    ensures m * x < m * y
  {
    assert m * (y - x) > 0.0;
    assert m * (y - x) == m * y - m * x;
  }

  /** The counter follows the calls until the value before jitter is above the
      maximum, and stays there. */
  lemma {:induction false} CounterFollows(c: Settings, k: nat)
    ensures Attempt(c, k) == k || (Attempt(c, k) < k && Raw(c, Attempt(c, k)) > c.max as real)
    decreases k
  {
    if k > 0 {
      CounterFollows(c, k - 1);
    }
  }

  /** Exactly when the k-th delay since Reset is min * factor^k up to the maximum,
      although the counter stops growing there: always, except with a factor below 1
      and a minimum above the maximum, where it is the maximum for ever. */
  lemma GeometricUpToMax(c: Settings, k: nat)
    requires c.Positive()
    ensures Capped(c, Raw(c, Attempt(c, k))) == Capped(c, Raw(c, k)) <==>
      c.factor >= 1.0 || c.min <= c.max || Raw(c, k) >= c.max as real
    ensures c.factor < 1.0 && c.min > c.max ==> Capped(c, Raw(c, Attempt(c, k))) == c.max as real
  {
    CounterFollows(c, k);
    if c.factor >= 1.0 {
      RawGrows(c, Attempt(c, k), k);
    } else if c.min <= c.max {
      RawShrinks(c, Attempt(c, k));
    } else {
      StaysAtMax(c, k);
    }
  }

  lemma {:induction false} StaysAtMax(c: Settings, k: nat)
    requires c.min > c.max
    ensures Attempt(c, k) == 0
    decreases k
  {
    assert Raw(c, 0) == c.min as real;
    if k > 0 {
      StaysAtMax(c, k - 1);
    }
  }

  lemma DefaultPowers()
    ensures Pow(2.0, 0) == 1.0 && Pow(2.0, 1) == 2.0 && Pow(2.0, 2) == 4.0 && Pow(2.0, 3) == 8.0
    ensures Pow(2.0, 4) == 16.0 && Pow(2.0, 5) == 32.0 && Pow(2.0, 6) == 64.0
  {
    assert Pow(2.0, 1) == 2.0 * Pow(2.0, 0);
    assert Pow(2.0, 2) == 2.0 * Pow(2.0, 1);
    assert Pow(2.0, 3) == 2.0 * Pow(2.0, 2);
    assert Pow(2.0, 4) == 2.0 * Pow(2.0, 3);
    assert Pow(2.0, 5) == 2.0 * Pow(2.0, 4);
    assert Pow(2.0, 6) == 2.0 * Pow(2.0, 5);
  }

  /** The delay of the k-th call before jitter, in whole seconds. */
  function DefaultSeconds(k: nat): nat {
    match k
    case 0 => 1
    case 1 => 2
    case 2 => 4
    case 3 => 8
    case 4 => 16
    case 5 => 32
    case _ => 60
  }

  /** With the protocol's defaults the k-th delay since Reset is within a fifth of
      1, 2, 4, 8, 16, 32, 60, 60, ... seconds and the counter never passes 6. */
  lemma DefaultDelays(k: nat, random: real)
    requires 0.0 <= random < 1.0
    ensures
      var delay := Delay(DEFAULTS, Capped(DEFAULTS, Raw(DEFAULTS, Attempt(DEFAULTS, k))), random);
      8 * DefaultSeconds(k) * SECOND <= 10 * delay < 12 * DefaultSeconds(k) * SECOND
    ensures Attempt(DEFAULTS, k) <= 6
  {
    GeometricUpToMax(DEFAULTS, k);
    DefaultPowers();
    var base := DefaultSeconds(k) as real * SECOND as real;
    if k >= 6 {
      RawGrows(DEFAULTS, 6, k);
    }
    assert Capped(DEFAULTS, Raw(DEFAULTS, k)) == base;
    var swing := 1.0 + 0.2 * (2.0 * random - 1.0);
    assert 0.8 <= swing < 1.2;
    JitterBounds(base, swing, 8 * DefaultSeconds(k) * (SECOND / 10));
    DefaultCounter(k);
  }

  lemma DefaultCounter(k: nat)
    ensures Attempt(DEFAULTS, k) <= 6
  {
    if Attempt(DEFAULTS, k) > 6 {
      CounterStops(DEFAULTS, k);
      DefaultPowers();
      RawGrows(DEFAULTS, 6, Attempt(DEFAULTS, k) - 1);
      assert false;
    }
  }

  lemma JitterBounds(base: real, swing: real, low: nat)
    requires base > 0.0 && 0.8 <= swing < 1.2 && low as real == 0.8 * base
    ensures low <= Truncate(base * swing)
    ensures (Truncate(base * swing) as real) < 1.2 * base
  {
    hide *;
    var x := Times(base, swing);
    TimesBounds(base, swing);
    WholeBounds(x, low, 1.2 * base);
    TimesIs(base, swing);
  }

  function Times(x: real, y: real): real {
    x * y
  }

  lemma TimesIs(x: real, y: real)
    ensures Times(x, y) == x * y
  {
  }

  lemma TimesBounds(base: real, swing: real)
    requires base > 0.0 && 0.8 <= swing < 1.2
    ensures 0.8 * base <= Times(base, swing) < 1.2 * base
  {
    hide *;
    TimesGrows(base, 0.8, swing);
    TimesGrows(base, swing, 1.2);
    TimesConstants(base);
  }

  lemma TimesConstants(base: real)
    ensures Times(base, 0.8) == 0.8 * base && Times(base, 1.2) == 1.2 * base
  {
  }

  lemma TimesGrows(m: real, x: real, y: real)
    requires m > 0.0
    ensures x <= y ==> Times(m, x) <= Times(m, y)
    ensures x < y ==> Times(m, x) < Times(m, y)
  {
    if x < y {
      Less(m, x, y);
    }
  }

  lemma WholeBounds(x: real, low: nat, high: real)
    requires low as real <= x < high
    ensures low <= Truncate(x) && (Truncate(x) as real) < high
  {
    assert x.Floor as real <= x < x.Floor as real + 1.0;
  }

  /** With any settings the delay is the value before jitter, moved by the random share of
      the jitter in either direction, to the nanosecond. */
  lemma DelayWithinJitter(c: Settings, base: real, random: real)
    requires c.Positive() && base > 0.0 && 0.0 <= random < 1.0
    ensures
      var moved := base + Times(base, Times(c.jitter, 2.0 * random - 1.0));
      moved - 1.0 < Delay(c, base, random) as real < moved + 1.0
    ensures base - Times(c.jitter, base) - 1.0 < Delay(c, base, random) as real < base + Times(c.jitter, base) + 1.0
  {
    assert c.jitter > 0.0;
    DelayIs(c, base, random);
    hide *;
    var (r, jitter) := (2.0 * random - 1.0, c.jitter);
    var share := Times(jitter, r);
    TimesOnePlus(base, share);
    TruncateNear(Times(base, 1.0 + share));
    TimesGrows(jitter, -1.0, r);
    TimesGrows(jitter, r, 1.0);
    TimesOne(jitter);
    TimesGrows(base, -jitter, share);
    TimesGrows(base, share, jitter);
    TimesTurned(base, jitter);
  }

  lemma DelayIs(c: Settings, base: real, random: real)
    ensures Delay(c, base, random) == Truncate(Times(base, 1.0 + Times(c.jitter, 2.0 * random - 1.0)))
  {
  }

  lemma TimesOnePlus(x: real, y: real)
    ensures Times(x, 1.0 + y) == x + Times(x, y)
  {
  }

  lemma TimesOne(x: real)
    ensures Times(x, 1.0) == x && Times(x, -1.0) == -x
  {
  }

  lemma TimesTurned(x: real, y: real)
    ensures Times(x, y) == Times(y, x) && Times(x, -y) == -Times(y, x)
  {
  }

  lemma TruncateNear(x: real)
    ensures x - 1.0 < Truncate(x) as real < x + 1.0
  {
  }

  /** The counter only ever steps over a value that is not above the maximum. */
  lemma {:induction false} CounterStops(c: Settings, k: nat)
    ensures Attempt(c, k) > 0 ==> Raw(c, Attempt(c, k) - 1) <= c.max as real
    decreases k
  {
    if k > 0 {
      CounterStops(c, k - 1);
    }
  }
}

module Backoff {
  import opened Options
  import opened Protocol
  import Spec = BackoffSpec

  class Backoff {
    const settings: Spec.Settings
    var attempt: nat

    /** The number of calls of Next since the last Reset. */
    ghost var calls: nat

    ghost predicate Valid()
      reads this
    {
      settings.Positive() && attempt == Spec.Attempt(settings, calls)
    }

    /** Zero or negative settings stand for the protocol's defaults. */
    constructor (min: int, max: int, factor: real, jitter: real)
      ensures Valid() && calls == 0
      ensures settings.min == (if min <= 0 then Spec.BACKOFF_MIN else min)
      ensures settings.max == (if max <= 0 then Spec.BACKOFF_MAX else max)
      ensures settings.factor == (if factor <= 0.0 then Spec.BACKOFF_FACTOR else factor)
      ensures settings.jitter == (if jitter <= 0.0 then Spec.BACKOFF_JITTER else jitter)
    {
      settings := Spec.Settings(
        if min <= 0 then Spec.BACKOFF_MIN else min,
        if max <= 0 then Spec.BACKOFF_MAX else max,
        if factor <= 0.0 then Spec.BACKOFF_FACTOR else factor,
        if jitter <= 0.0 then Spec.BACKOFF_JITTER else jitter);
      attempt := 0;
      calls := 0;
    }

    /** `random` is the value drawn from [0, 1). */
    method Next(random: real) returns (delay: int)
      requires Valid() && 0.0 <= random < 1.0
      modifies this
      ensures Valid() && calls == old(calls) + 1
      ensures delay == Spec.Delay(settings, Spec.Capped(settings, Spec.Raw(settings, old(attempt))), random)
      ensures settings == Spec.DEFAULTS ==>
        && 8 * Spec.DefaultSeconds(old(calls)) * Spec.SECOND <= 10 * delay < 12 * Spec.DefaultSeconds(old(calls)) * Spec.SECOND
        && attempt <= 6
    {
      ghost var k := calls;
      var base := Spec.Raw(settings, attempt);
      if base > settings.max as real {
        base := settings.max as real;
      } else {
        attempt := attempt + 1;
      }
      calls := calls + 1;
      if settings == Spec.DEFAULTS {
        Spec.DefaultDelays(k, random);
        Spec.DefaultDelays(k + 1, random);
      }
      return Spec.Delay(settings, base, random);
    }

    method Reset()
      requires Valid()
      modifies this
      ensures Valid() && calls == 0
    {
      attempt := 0;
      calls := 0;
    }
  }

  predicate IsTransient(answer: Option<Failure>) {
    answer.Some? && IsRetryable(answer.value)
  }

  /** What one sleep of Retry takes: the delay of that call of Next, or longer if the
      Server asked for it. */
  function Sleep(c: Spec.Settings, call: nat, random: real, failure: Failure): int {
    var delay := Spec.Delay(c, Spec.Capped(c, Spec.Raw(c, Spec.Attempt(c, call))), random);
    if RetryAfter(failure) > delay then RetryAfter(failure) else delay
  }

  /** With the defaults a sleep is never shorter than four fifths of the call's delay
      nor than Retry-After, and longer than six fifths only if Retry-After is. */
  lemma DefaultSleep(call: nat, random: real, failure: Failure)
    requires 0.0 <= random < 1.0
    ensures
      var (sleep, unit) := (Sleep(Spec.DEFAULTS, call, random, failure), Spec.DefaultSeconds(call) * Spec.SECOND);
      && sleep >= RetryAfter(failure) && 10 * sleep >= 8 * unit
      && (sleep == RetryAfter(failure) || 10 * sleep < 12 * unit)
  {
    Spec.DefaultDelays(call, random);
  }

  /** Of the delay and the Server's Retry-After, the longer one. */
  lemma SleepExactly(settings: Spec.Settings, call: nat, random: real, failure: Failure)
    ensures
      var sleep := Sleep(settings, call, random, failure);
      var delay := Spec.Delay(settings, Spec.Capped(settings, Spec.Raw(settings, Spec.Attempt(settings, call))), random);
      sleep >= delay && sleep >= RetryAfter(failure) && (sleep == delay || sleep == RetryAfter(failure))
  {
  }

  /** client.Retry. `answers` are what the attempts would come to, None for a success;
      the context ends during the sleep after the last of them. */
  method Retry(b: Backoff, answers: seq<Option<Failure>>, randoms: seq<real>) returns (tries: nat, delays: seq<int>)
    requires b.Valid()
    requires |randoms| == |answers| && forall k :: 0 <= k < |randoms| ==> 0.0 <= randoms[k] < 1.0
    modifies b
    ensures b.Valid()
    ensures tries <= |answers| && |delays| <= tries <= |delays| + 1
    ensures forall k :: 0 <= k < |delays| ==>
      IsTransient(answers[k]) && delays[k] == Sleep(b.settings, old(b.calls) + k, randoms[k], answers[k].value)
    ensures tries == |answers| || (tries > 0 && !IsTransient(answers[tries - 1]))
    ensures tries > |delays| ==> !IsTransient(answers[tries - 1])
    ensures b.calls == if tries > |delays| && answers[tries - 1].None? then 0 else old(b.calls) + |delays|
  {
    tries, delays := 0, [];
    while tries < |answers|
      invariant b.Valid() && tries == |delays| <= |answers| && b.calls == old(b.calls) + tries
      invariant forall k :: 0 <= k < |delays| ==>
        IsTransient(answers[k]) && delays[k] == Sleep(b.settings, old(b.calls) + k, randoms[k], answers[k].value)
    {
      var answer := answers[tries];
      tries := tries + 1;
      if answer.None? {
        b.Reset();
        return;
      }
      if !IsRetryable(answer.value) {
        return;
      }
      var delay := b.Next(randoms[tries - 1]);
      if RetryAfter(answer.value) > delay {
        delay := RetryAfter(answer.value);
      }
      delays := delays + [delay];
    }
  }
}
