/** The adaptive sampler of `Informant._send_sampled_event`: a
    deterministic "catch-up" decision that samples an event exactly when
    the fraction sampled so far is below the target rate. This module holds
    the state machine as a function on values and what it guarantees;
    `Middleware.Informant.SendSampledEvent` runs it in place on the
    object's fields. */
module Sampler {

  /** `sys.maxint` of a 64-bit Python 2: once either counter reaches it,
      both are reset. */
  const MaxInt: int := 0x7FFF_FFFF_FFFF_FFFF

  /** The three fields the sampler updates: `counter` (events seen),
      `monitored` (events sampled) and `actual_rate` (their ratio, kept
      at its last value across a reset). */
  datatype SamplerState = SamplerState(counter: int, monitored: int, actualRate: real)

  /** The state `Informant.__init__` sets up. */
  const Fresh: SamplerState := SamplerState(0, 0, 0.0)

  /** The outcome of one call: the new state and the answer. */
  datatype Decision = Decision(next: SamplerState, sample: bool)

  /** Every state the sampler can reach: the counters are ordered and below
      `MaxInt`, and while events have been counted the rate is their ratio. */
  predicate Valid(s: SamplerState) {
    0 <= s.monitored <= s.counter < MaxInt
    && (s.counter > 0 ==> s.actualRate == s.monitored as real / s.counter as real)
  }

  /** One call of `_send_sampled_event`. */
  function Step(s: SamplerState, rate: real): (d: Decision)
    requires Valid(s)
    ensures Valid(d.next)
    ensures d.sample <==> s.actualRate < rate
    // Without a reset the call counts one event and samples it or not;
    // the reset lands on zero counters and happens exactly at MaxInt.
    ensures s.counter + 1 < MaxInt ==>
              d.next.counter == s.counter + 1
              && d.next.monitored == s.monitored + (if d.sample then 1 else 0)
    ensures s.counter + 1 == MaxInt ==> d.next.counter == 0 && d.next.monitored == 0
    // The rate is recomputed before the reset and survives it.
    ensures d.next.actualRate
            == (s.monitored + (if d.sample then 1 else 0)) as real / (s.counter + 1) as real
  {
    var sample := s.actualRate < rate;
    var counter := s.counter + 1;
    var monitored := if sample then s.monitored + 1 else s.monitored;
    var actualRate := monitored as real / counter as real;
    if counter >= MaxInt || monitored >= MaxInt then
      Decision(SamplerState(0, 0, actualRate), sample)
    else
      Decision(SamplerState(counter, monitored, actualRate), sample)
  }

  /** The state after `n` further calls. */
  function Run(s: SamplerState, rate: real, n: nat): (r: SamplerState)
    requires Valid(s)
    ensures Valid(r)
  {
    if n == 0 then s else Step(Run(s, rate, n - 1), rate).next
  }

  /** How many of `n` further calls answer true. */
  function Sampled(s: SamplerState, rate: real, n: nat): nat
    requires Valid(s)
  {
    if n == 0 then 0
    else Sampled(s, rate, n - 1) + (if Step(Run(s, rate, n - 1), rate).sample then 1 else 0)
  }

  /** The catch-up invariant: the number of sampled events is within one
      event of `rate` times the number of events seen. */
  predicate Balanced(s: SamplerState, rate: real) {
    -rate <= s.monitored as real - rate * s.counter as real < 1.0
  }

  lemma RatioBelow(m: real, c: real, r: real)
    requires c > 0.0
    ensures m / c < r <==> m < r * c
  {
    assert (m / c) * c == m;
    if m / c < r {
      assert (m / c) * c < r * c;
    } else {
      assert (m / c) * c >= r * c;
    }
  }

  /** Each call keeps the sampled count within one event of the target,
      whatever the stale rate left behind by a reset. */
  lemma StepKeepsBalance(s: SamplerState, rate: real)
    requires 0.0 < rate <= 1.0
    requires Valid(s) && Balanced(s, rate)
    ensures Balanced(Step(s, rate).next, rate)
  {
    var d := Step(s, rate);
    if s.counter > 0 {
      RatioBelow(s.monitored as real, s.counter as real, rate);
    }
    if s.counter + 1 < MaxInt {
      assert rate * (s.counter + 1) as real == rate * s.counter as real + rate;
    }
  }

  /** The invariant holds after any number of calls, resets included. */
  lemma {:induction false} RunKeepsBalance(s: SamplerState, rate: real, n: nat)
    requires 0.0 < rate <= 1.0
    requires Valid(s) && Balanced(s, rate)
    ensures Balanced(Run(s, rate, n), rate)
  {
    if n > 0 {
      RunKeepsBalance(s, rate, n - 1);
      StepKeepsBalance(Run(s, rate, n - 1), rate);
    }
  }

  /** Over the first `n` calls of a fresh sampler (no reset before `MaxInt`
      calls) the counter is `n`, `monitored` is the number of true answers,
      and that number is within one of `rate * n`. */
  lemma {:induction false} CatchUp(rate: real, n: nat)
    requires 0.0 < rate <= 1.0
    requires n < MaxInt
    ensures Run(Fresh, rate, n).counter == n
    ensures Run(Fresh, rate, n).monitored == Sampled(Fresh, rate, n)
    ensures -1.0 <= Sampled(Fresh, rate, n) as real - rate * n as real <= 1.0
  {
    CountsWithoutReset(rate, n);
    RunKeepsBalance(Fresh, rate, n);
    BalancedBounds(Run(Fresh, rate, n), rate, n, Sampled(Fresh, rate, n));
  }

  lemma {:induction false} CountsWithoutReset(rate: real, n: nat)
    requires n < MaxInt
    ensures Run(Fresh, rate, n).counter == n
    ensures Run(Fresh, rate, n).monitored == Sampled(Fresh, rate, n)
  {
    if n > 0 {
      CountsWithoutReset(rate, n - 1);
    }
  }

  lemma BalancedBounds(s: SamplerState, rate: real, c: int, m: int)
    requires 0.0 < rate <= 1.0
    requires Balanced(s, rate) && s.counter == c && s.monitored == m
    ensures -1.0 <= m as real - rate * c as real <= 1.0
  {
  }

  /** Whenever events have been counted, the observed rate is within
      `1 / counter` of the target: it converges as the counter grows. */
  lemma RatioWithin(s: SamplerState, rate: real)
    requires 0.0 < rate <= 1.0
    requires Valid(s) && Balanced(s, rate) && s.counter > 0
    ensures -1.0 / s.counter as real <= s.actualRate - rate < 1.0 / s.counter as real
  {
    var c := s.counter as real;
    var m := s.monitored as real;
    assert s.actualRate - rate == (m - rate * c) / c;
    assert -1.0 <= m - rate * c < 1.0;
    DivideBounds(m - rate * c, c);
  }

  lemma DivideBounds(x: real, c: real)
    requires c > 0.0 && -1.0 <= x < 1.0
    ensures -1.0 / c <= x / c < 1.0 / c
  {
    assert x / c - 1.0 / c == (x - 1.0) / c;
    assert x / c + 1.0 / c == (x + 1.0) / c;
  }

  /** A fresh sampler samples the first event for any positive rate. */
  lemma FirstCallSamples(rate: real)
    requires rate > 0.0
    ensures Step(Fresh, rate).sample
  {
  }

  /** At rate 1.0 the sampler does not sample every event: the second call
      answers false, because the first left the observed rate at exactly
      1.0, which is not below the target. */
  lemma RateOneSkipsSecondCall()
    ensures Step(Fresh, 1.0).sample
    ensures !Step(Step(Fresh, 1.0).next, 1.0).sample
  {
  }

  /** ... and it is the only one skipped before the counters reset: after
      `n >= 2` calls, `n - 1` were sampled. */
  lemma {:induction false} RateOneSamplesAllButOne(n: nat)
    requires 2 <= n < MaxInt
    ensures Run(Fresh, 1.0, n) == SamplerState(n, n - 1, (n - 1) as real / n as real)
    ensures Sampled(Fresh, 1.0, n) == n - 1
  {
    if n > 2 {
      RateOneSamplesAllButOne(n - 1);
      RateOneStep(n - 1);
    } else {
      assert Run(Fresh, 1.0, 1) == SamplerState(1, 1, 1.0);
    }
  }

  lemma RateOneStep(c: int)
    requires 1 <= c && c + 1 < MaxInt
    ensures var s := SamplerState(c, c - 1, (c - 1) as real / c as real);
            Valid(s)
            && Step(s, 1.0) == Decision(SamplerState(c + 1, c, c as real / (c + 1) as real), true)
  {
    RatioBelow((c - 1) as real, c as real, 1.0);
  }
}
