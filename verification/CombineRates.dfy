/** The rate controller of module-combine-sink.c. The scale factors 0.8, 1.25,
    0.998 and 1.002 are exact fractions here and conversions to integers
    truncate, so a rate is a natural number throughout. */
module CombineRates {

  type usec = n: int | 0 <= n < 0xFFFF_FFFF_FFFF_FFFF

  function Lowest(base: nat): nat { base * 4 / 5 }
  function Highest(base: nat): nat { base * 5 / 4 }
  function StepDown(rate: nat): nat { rate * 998 / 1000 }
  function StepUp(rate: nat): nat { rate * 1002 / 1000 }

  /** Division that truncates towards zero, as a C cast does. */
  function Truncated(a: int, b: nat): int
    requires b > 0
  {
    if a >= 0 then a / b else -((-a) / b)
  }

  /** The rate that would remove the latency error within one adjustment period. */
  function Wanted(base: nat, total: usec, target: usec, adjustTime: nat): int
    requires adjustTime > 0
  {
    if total != target then base + Truncated((total - target) * base, adjustTime) else base
  }

  predicate TooDifferent(base: nat, wanted: int) {
    wanted < Lowest(base) || wanted > Highest(base)
  }

  function Snapped(base: nat, wanted: int): int {
    if base < wanted + 20 && wanted < base + 20 then base else wanted
  }

  /** The wanted rate, reset, snapped to the base rate and kept near the current one. */
  function Limited(base: nat, current: nat, wanted: int): nat {
    if TooDifferent(base, wanted) then base
    else
      var r := Snapped(base, wanted);
      if r < StepDown(current) then StepDown(current)
      else if r > StepUp(current) then StepUp(current)
      else r
  }

  function NewRate(base: nat, current: nat, total: usec, target: usec, adjustTime: nat): nat
    requires adjustTime > 0
  {
    Limited(base, current, Wanted(base, total, target, adjustTime))
  }

  // ----- One step -----

  /** The wanted rate is off the base rate by the error in proportion to the
      adjustment period, rounded towards the base rate: at that rate one period
      removes the error. */
  lemma WantedRemovesError(base: nat, total: usec, target: usec, adjustTime: nat)
    requires adjustTime > 0
    ensures var change := Wanted(base, total, target, adjustTime) - base;
            if total >= target
            then change * adjustTime <= (total - target) * base < (change + 1) * adjustTime
            else (change - 1) * adjustTime < (total - target) * base <= change * adjustTime
  {
    var error := (total - target) * base;
    TruncatedBounds(error, adjustTime);
    SignOf(total - target, base);
  }

  lemma SignOf(a: int, base: nat)
    ensures (a >= 0 ==> a * base >= 0) && (a <= 0 ==> a * base <= 0)
  {
  }

  lemma TruncatedBounds(a: int, b: nat)
    requires b > 0
    ensures a >= 0 ==> Truncated(a, b) * b <= a < (Truncated(a, b) + 1) * b
    ensures a <= 0 ==> (Truncated(a, b) - 1) * b < a <= Truncated(a, b) * b
  {
    QuotientBounds(if a >= 0 then a else -a, b);
  }

  lemma QuotientBounds(a: nat, b: nat)
    requires b > 0
    ensures a / b * b <= a < (a / b + 1) * b
  {
    assert a == a / b * b + a % b;
  }

  /** A rate between 0.8 and 1.25 of the base rate, up to the truncation. */
  predicate InBand(base: nat, rate: int) {
    5 * (rate + 1) > 4 * base && 4 * rate <= 5 * base
  }

  /** A rate within 2 per mille of the current one, up to the truncation. */
  predicate InStep(current: nat, rate: int) {
    1000 * (rate + 1) > 998 * current && 1000 * rate <= 1002 * current
  }

  lemma BandIs(base: nat, rate: int)
    ensures InBand(base, rate) <==> Lowest(base) <= rate <= Highest(base)
  {
  }

  /** A step goes from the current rate towards its goal, and not beyond. */
  lemma LimitedBetween(base: nat, current: nat, wanted: int)
    requires !TooDifferent(base, wanted)
    ensures var r, goal := Limited(base, current, wanted), Snapped(base, wanted);
            r == goal || goal <= r <= current || current <= r <= goal
  {
  }

  lemma LimitedInBand(base: nat, current: nat, wanted: int)
    requires InBand(base, current)
    ensures InBand(base, Limited(base, current, wanted))
  {
    BandIs(base, base);
    BandIs(base, wanted);
    if !TooDifferent(base, wanted) {
      LimitedBetween(base, current, wanted);
    }
  }

  lemma LimitedIs(base: nat, current: nat, wanted: int)
    ensures var r := Limited(base, current, wanted);
            var goal := if -20 < wanted - base < 20 then base else wanted;
            && (!InBand(base, wanted) ==> r == base)
            && (InBand(base, wanted) ==>
                  && InStep(current, r)
                  && forall other: nat :: InStep(current, other) ==>
                       if r <= goal then other <= r || other >= goal else other >= r)
  {
  }

  /** The whole step: a wanted rate outside the band resets to the base rate; one
      less than 20 Hz from the base rate stands for the base rate; and of all rates
      within 2 per mille of the current one the step takes the nearest to that. */
  lemma StepIsNearest(base: nat, current: nat, total: usec, target: usec, adjustTime: nat)
    requires adjustTime > 0
    ensures var wanted := Wanted(base, total, target, adjustTime);
            var r := NewRate(base, current, total, target, adjustTime);
            var goal := if -20 < wanted - base < 20 then base else wanted;
            if !InBand(base, wanted) then r == base
            else
              && InStep(current, r)
              && forall other: nat :: InStep(current, other) ==>
                   if r <= goal then other <= r || other >= goal else other >= r
  {
    LimitedIs(base, current, Wanted(base, total, target, adjustTime));
  }

  /** A rate in the allowed band stays in it; a step that is not a reset keeps
      within 2 per mille of the current rate. */
  lemma StepBounds(base: nat, current: nat, total: usec, target: usec, adjustTime: nat)
    requires adjustTime > 0
    ensures var r := NewRate(base, current, total, target, adjustTime);
            && (InBand(base, current) ==> InBand(base, r))
            && (if InBand(base, Wanted(base, total, target, adjustTime)) then InStep(current, r) else r == base)
  {
    LimitedIs(base, current, Wanted(base, total, target, adjustTime));
    if InBand(base, current) {
      LimitedInBand(base, current, Wanted(base, total, target, adjustTime));
    }
  }

  /** The controller pushes in the direction of the error: an output that is
      too late never wants a rate below the base rate, one that is too early
      never one above it. */
  lemma Direction(base: nat, total: usec, target: usec, adjustTime: nat)
    requires adjustTime > 0
    ensures total >= target ==> Wanted(base, total, target, adjustTime) >= base
    ensures total <= target ==> Wanted(base, total, target, adjustTime) <= base
  {
  }

  // ----- Whole runs -----

  /** The rate after a series of adjustments with the given latencies and targets. */
  function RateAfter(base: nat, rate: nat, errors: seq<(usec, usec)>, adjustTime: nat): nat
    requires adjustTime > 0
    decreases |errors|
  {
    if errors == [] then rate
    else RateAfter(base, NewRate(base, rate, errors[0].0, errors[0].1, adjustTime), errors[1..], adjustTime)
  }

  /** Whatever latencies are reported, the rate never leaves the band. */
  lemma {:induction false} RunStaysInBand(base: nat, rate: nat, errors: seq<(usec, usec)>, adjustTime: nat)
    requires adjustTime > 0 && InBand(base, rate)
    ensures InBand(base, RateAfter(base, rate, errors, adjustTime))
    decreases |errors|
  {
    if errors != [] {
      StepBounds(base, rate, errors[0].0, errors[0].1, adjustTime);
      RunStaysInBand(base, NewRate(base, rate, errors[0].0, errors[0].1, adjustTime), errors[1..], adjustTime);
    }
  }

  /** One step of an output whose latency is on target. */
  function Settle(base: nat, rate: nat): nat {
    if base < StepDown(rate) then StepDown(rate) else if base > StepUp(rate) then StepUp(rate) else base
  }

  lemma SettleIsNewRate(base: nat, rate: nat, latency: usec, adjustTime: nat)
    requires adjustTime > 0
    ensures NewRate(base, rate, latency, latency, adjustTime) == Settle(base, rate)
  {
  }

  function Settled(base: nat, rate: nat, n: nat): nat
    decreases n
  {
    if n == 0 then rate else Settled(base, Settle(base, rate), n - 1)
  }

  /** How far a rate is from the base rate. */
  function Distance(base: nat, rate: nat): nat {
    if rate >= base then rate - base else base - rate
  }

  /** Below 500 Hz, 2 per mille round to nothing and an upward step stops moving. */
  predicate Moves(base: nat, rate: nat) {
    rate >= 500 || rate >= base
  }

  lemma SettleApproaches(base: nat, rate: nat)
    requires Moves(base, rate)
    ensures Moves(base, Settle(base, rate))
    ensures rate != base ==> Distance(base, Settle(base, rate)) < Distance(base, rate)
    ensures rate == base ==> Settle(base, rate) == base
  {
  }

  lemma {:induction false} SettlesWithin(base: nat, rate: nat, n: nat)
    requires Moves(base, rate) && Distance(base, rate) <= n
    ensures Settled(base, rate, n) == base
    decreases n
  {
    SettleApproaches(base, rate);
    if n > 0 {
      SettlesWithin(base, Settle(base, rate), n - 1);
    }
  }

  lemma {:induction false} StuckForever(base: nat, rate: nat, n: nat)
    requires !Moves(base, rate)
    ensures Settled(base, rate, n) == rate
    decreases n
  {
    assert Settle(base, rate) == rate;
    if n > 0 {
      StuckForever(base, rate, n - 1);
    }
  }

  /** On target, the rate comes to the base rate some time. */
  ghost predicate Settles(base: nat, rate: nat) {
    exists n :: Settled(base, rate, n) == base
  }

  /** An output that stays on target reaches exactly the base rate if and only
      if its rate is at least 500 Hz or not below the base rate; it then takes
      no more steps than it is hertz away. */
  lemma SettlesIff(base: nat, rate: nat)
    ensures Settles(base, rate) <==> Moves(base, rate)
    ensures Moves(base, rate) ==> Settled(base, rate, Distance(base, rate)) == base
  {
    if Moves(base, rate) {
      SettlesWithin(base, rate, Distance(base, rate));
    } else {
      forall n: nat
        ensures Settled(base, rate, n) != base
      {
        StuckForever(base, rate, n);
      }
    }
  }

  /** So every rate of the band comes to the base rate exactly for base rates of
      625 Hz and more. */
  lemma BandSettlesIff(base: nat)
    requires base > 0
    ensures (forall rate: nat :: Lowest(base) <= rate <= Highest(base) ==> Settles(base, rate)) <==> base >= 625
  {
    if base >= 625 {
      forall rate: nat | Lowest(base) <= rate <= Highest(base)
        ensures Settles(base, rate)
      {
        SettlesIff(base, rate);
      }
    } else {
      SettlesIff(base, Lowest(base));
    }
  }

  // ----- The adjustment of all outputs -----

  /** A latency that can be added to another without leaving 64 bits. */
  type latency = n: int | 0 <= n < 0x8000_0000_0000_0000

  /** An output as the main thread sees it. Only enabled outputs, those with a
      stream on an opened sink, take part. */
  datatype CombineOutput = CombineOutput(
    enabled: bool,
    inputLatency: latency,
    sinkLatency: latency,
    totalLatency: usec,
    rate: nat)

  function Total(o: CombineOutput): usec {
    o.inputLatency as int + o.sinkLatency as int
  }

  /** The greatest sink latency and the least total latency of the enabled outputs. */
  ghost predicate Extremes(outs: seq<CombineOutput>, maxSink: nat, minTotal: nat) {
    && (forall i :: 0 <= i < |outs| && outs[i].enabled ==> outs[i].sinkLatency <= maxSink && minTotal <= Total(outs[i]))
    && (maxSink == 0 || exists i :: 0 <= i < |outs| && outs[i].enabled && outs[i].sinkLatency == maxSink)
    && exists i :: 0 <= i < |outs| && outs[i].enabled && Total(outs[i]) == minTotal
  }

  ghost predicate IsTarget(outs: seq<CombineOutput>, target: nat) {
    exists s: nat, t: nat :: Extremes(outs, s, t) && target == if s > t then s else t
  }

  ghost predicate AnyEnabled(outs: seq<CombineOutput>) {
    exists i :: 0 <= i < |outs| && outs[i].enabled
  }

  /** What measuring leaves: the total latency of an enabled output is known. */
  predicate IsMeasured(before: CombineOutput, after: CombineOutput) {
    if before.enabled then after == before.(totalLatency := before.inputLatency as int + before.sinkLatency as int)
    else after == before
  }

  /** What steering leaves: an enabled output has its total latency and its new rate. */
  predicate IsSteered(before: CombineOutput, after: CombineOutput, base: nat, target: usec, adjustTime: nat)
    requires adjustTime > 0
  {
    if before.enabled then
      var total := before.inputLatency as int + before.sinkLatency as int;
      after == before.(totalLatency := total, rate := NewRate(base, before.rate, total, target, adjustTime))
    else after == before
  }

  /** The first loop of adjust_rates: record every total, and find the target. */
  method Measure(outs: array<CombineOutput>) returns (found: bool, target: usec)
    modifies outs
    ensures forall i :: 0 <= i < outs.Length ==> IsMeasured(old(outs[i]), outs[i])
    ensures found <==> AnyEnabled(old(outs[..]))
    ensures found ==> IsTarget(old(outs[..]), target)
  {
    ghost var before := outs[..];
    found, target := false, 0;
    var maxSink: usec, minTotal: usec := 0, 0;
    for i := 0 to outs.Length
      invariant forall j :: 0 <= j < i ==> IsMeasured(before[j], outs[j])
      invariant forall j :: i <= j < outs.Length ==> outs[j] == before[j]
      invariant SeenSoFar(before[..i], found, maxSink, minTotal)
    {
      assert before[..i + 1] == before[..i] + [before[i]];
      var o := outs[i];
      if o.enabled {
        MeasureStep(before[..i], o, found, maxSink, minTotal);
        outs[i] := o.(totalLatency := Total(o));
        maxSink := if o.sinkLatency > maxSink then o.sinkLatency as int else maxSink;
        minTotal := if !found || Total(o) < minTotal then Total(o) else minTotal;
        found := true;
      } else {
        SkipStep(before[..i], o, found, maxSink, minTotal);
      }
    }
    assert before[..outs.Length] == before;
    target := if maxSink > minTotal then maxSink else minTotal;
  }

  ghost predicate SeenSoFar(done: seq<CombineOutput>, found: bool, maxSink: nat, minTotal: nat) {
    && (found <==> AnyEnabled(done))
    && if found then Extremes(done, maxSink, minTotal) else maxSink == 0
  }

  lemma MeasureStep(done: seq<CombineOutput>, o: CombineOutput, found: bool, maxSink: nat, minTotal: nat)
    requires o.enabled && SeenSoFar(done, found, maxSink, minTotal)
    ensures SeenSoFar(done + [o], true,
                      if o.sinkLatency > maxSink then o.sinkLatency as int else maxSink,
                      if !found || Total(o) < minTotal then Total(o) else minTotal)
  {
    var all := done + [o];
    assert all[|done|] == o;
    assert forall i :: 0 <= i < |done| ==> all[i] == done[i];
  }

  lemma SkipStep(done: seq<CombineOutput>, o: CombineOutput, found: bool, maxSink: nat, minTotal: nat)
    requires !o.enabled && SeenSoFar(done, found, maxSink, minTotal)
    ensures SeenSoFar(done + [o], found, maxSink, minTotal)
  {
    var all := done + [o];
    assert forall i :: 0 <= i < |done| ==> all[i] == done[i];
  }

  lemma SteeredInBand(before: CombineOutput, after: CombineOutput, base: nat, target: usec, adjustTime: nat)
    requires adjustTime > 0 && IsSteered(before, after, base, target, adjustTime) && InBand(base, before.rate)
    ensures InBand(base, after.rate)
  {
    LimitedInBand(base, before.rate, Wanted(base, Total(before), target, adjustTime));
  }

  lemma SteeredFrom(before: CombineOutput, o: CombineOutput, base: nat, target: usec, adjustTime: nat)
    requires adjustTime > 0 && IsMeasured(before, o)
    ensures var after := if o.enabled then o.(rate := NewRate(base, o.rate, o.totalLatency, target, adjustTime)) else o;
            IsSteered(before, after, base, target, adjustTime)
  {
  }

  /** adjust_rates: measure every enabled output, then steer each towards the
      target. The other outputs are left alone, and every rate stays in its band. */
  method AdjustRates(outs: array<CombineOutput>, base: nat, adjustTime: nat) returns (found: bool, target: usec)
    requires adjustTime > 0
    modifies outs
    ensures found <==> AnyEnabled(old(outs[..]))
    ensures !found ==> outs[..] == old(outs[..])
    ensures found ==> IsTarget(old(outs[..]), target)
    ensures found ==> forall i :: 0 <= i < outs.Length ==> IsSteered(old(outs[i]), outs[i], base, target, adjustTime)
    ensures forall i :: 0 <= i < outs.Length && InBand(base, old(outs[i].rate)) ==> InBand(base, outs[i].rate)
  {
    found, target := Measure(outs);
    if !found {
      return;
    }
    for i := 0 to outs.Length
      invariant forall j :: 0 <= j < i ==> IsSteered(old(outs[j]), outs[j], base, target, adjustTime)
      invariant forall j :: i <= j < outs.Length ==> IsMeasured(old(outs[j]), outs[j])
    {
      var o := outs[i];
      SteeredFrom(old(outs[i]), o, base, target, adjustTime);
      if o.enabled {
        outs[i] := o.(rate := NewRate(base, o.rate, o.totalLatency, target, adjustTime));
      }
    }
    forall i | 0 <= i < outs.Length && InBand(base, old(outs[i].rate))
      ensures InBand(base, outs[i].rate)
    {
      SteeredInBand(old(outs[i]), outs[i], base, target, adjustTime);
    }
  }
}
