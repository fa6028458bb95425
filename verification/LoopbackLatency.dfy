/** The latency arithmetic of module-loopback.c: how the minimum latency is
    worked out and raised after underruns, how the latency budget is divided
    between sink and source, and how adjust_rates sets the rate. All latencies
    are in microseconds. */
module LoopbackLatency {
  import opened Common
  import opened LoopbackRate

  const MIN_DEVICE_LATENCY := 2500
  const SAFETY_MARGIN := 1500
  const UNDERRUN_STEP := 5000

  type usec = n: int | 0 <= n < 0x1_0000_0000_0000_0000

  function Max(a: nat, b: nat): (m: nat)
    ensures m >= a && m >= b && (m == a || m == b)
  {
    if a > b then a else b
  }

  /** PA_CLAMP. */
  function Clamp(x: nat, low: nat, high: nat): (r: nat)
    ensures low <= high ==> low <= r <= high
    ensures low <= high ==> r == x || (r == low && x < low) || (r == high && x > high)
  {
    if x > high then high else if x < low then low else x
  }

  /** The unsigned 64-bit subtraction. */
  function Sub64(a: nat, b: usec): (r: nat)
    ensures (a - (r + b)) % 0x1_0000_0000_0000_0000 == 0
    ensures a < 0x1_0000_0000_0000_0000 ==> r < 0x1_0000_0000_0000_0000
  {
    if a >= b then a - b else a - b + 0x1_0000_0000_0000_0000
  }

  /** PA_CLIP_SUB on signed operands. */
  function ClipSub(a: int, b: int): (r: nat)
    ensures r >= a - b && (r == a - b || r == 0)
  {
    if a > b then a - b else 0
  }

  // ----- Dividing the budget -----

  /** What set_sink_input_latency and set_source_output_latency ask for: a third
      of the latency, or half of what the other side leaves of `total`. */
  function Wanted(latency: usec, total: nat, otherMin: usec): nat {
    if otherMin > latency / 3 then Sub64(total, otherMin) / 2 else latency / 3
  }

  /** A third of the latency when the other side can do with a third, and otherwise
      half of what its minimum leaves. */
  lemma WantedIs(latency: usec, total: nat, otherMin: usec)
    requires otherMin <= total
    ensures var w := Wanted(latency, total, otherMin);
            if 3 * otherMin <= latency then 3 * w <= latency < 3 * w + 3
            else 2 * w <= total - otherMin < 2 * w + 2
  {
  }

  function Ask(latency: usec, total: nat, otherMin: usec, min: usec, max: usec): nat {
    Clamp(Wanted(latency, total, otherMin), min, max)
  }

  /** Sink and source together keep within the budget exactly when their minima do. */
  lemma BudgetIff(latency: usec, total: nat, minSink: usec, maxSink: usec, minSource: usec, maxSource: usec)
    requires latency <= total && minSink <= maxSink && minSource <= maxSource
    ensures var sink := Ask(latency, total, minSource, minSink, maxSink);
            var source := Ask(latency, total, minSink, minSource, maxSource);
            sink + source <= total <==> minSink as int + minSource as int <= total
    ensures minSink as int + minSource as int <= total ==>
              minSource <= total && minSink <= total  // neither subtraction wraps around
  {
  }

  /** A port with a large negative offset: the minimum falls to 0, the budget is
      overrun and the subtraction wraps around. */
  lemma BudgetExample()
    ensures var minimum := WithOffset(RangeMinimum(2500, 2500, false, 0), -10000);
            && minimum == 0
            && Ask(1000, Max(1000, minimum), 2500, 2500, 100000)
               + Ask(1000, Max(1000, minimum), 2500, 2500, 100000) == 200000
            && Wanted(1000, 1000, 2500) > 0x7000_0000_0000_0000
  {
  }

  // ----- The minimum latency -----

  /** The limit from the latency ranges, before the port offsets. */
  function RangeMinimum(minSink: nat, minSource: nat, fixedAlsa: bool, fragmentMsec: nat): nat {
    (minSink + (if fixedAlsa then fragmentMsec * 1000 else minSource)) * 11 / 10 + SAFETY_MARGIN
  }

  /** The sink's minimum and that of the source, or one fragment for an ALSA source of
      fixed latency, with a tenth of them and 1.5 ms on top. */
  lemma RangeMinimumIs(minSink: nat, minSource: nat, fixedAlsa: bool, fragmentMsec: nat)
    ensures var m := RangeMinimum(minSink, minSource, fixedAlsa, fragmentMsec) - 1500;
            var both := if fixedAlsa then minSink + 1000 * fragmentMsec else minSink + minSource;
            10 * m <= 11 * both < 10 * m + 10
  {
  }

  /** Moved by the offset, but not below zero. */
  function WithOffset(m: nat, offset: int): (r: nat)
    ensures r >= m + offset && (r == m + offset || r == 0)
  {
    if -offset <= m then m + offset else 0
  }

  function MinimumLatency(underrunLimit: nat, rangeMinimum: nat, offset: int): (m: nat)
    ensures m >= offset
  {
    WithOffset(if underrunLimit != 0 then underrunLimit else rangeMinimum, offset)
  }

  /** Without negative port offsets the minimum covers both devices' minima. */
  lemma MinimumCoversBoth(minSink: nat, minSource: nat, fragmentMsec: nat, offset: int)
    requires offset >= 0
    ensures minSink + minSource <= MinimumLatency(0, RangeMinimum(minSink, minSource, false, fragmentMsec), offset)
  {
  }

  // ----- Raising it after underruns -----

  function UnderrunLimit(effective: nat, maxLatency: nat, offset: int): nat {
    var target := effective + UNDERRUN_STEP;
    ClipSub(if maxLatency == 0 || target < maxLatency then target else maxLatency, offset)
  }

  /** The effective latency after one escalation. */
  function Escalated(latency: nat, effective: nat, maxLatency: nat, rangeMinimum: nat, offset: int): nat {
    Max(latency, MinimumLatency(UnderrunLimit(effective, maxLatency, offset), rangeMinimum, offset))
  }

  function Raised(effective: nat, maxLatency: nat, by5ms: nat): nat {
    var target := effective + UNDERRUN_STEP * by5ms;
    if by5ms == 0 then effective
    else if maxLatency == 0 || target < maxLatency then target
    else maxLatency
  }

  /** One escalation adds 5 ms, up to the configured maximum, unless that maximum
      is reached and does not exceed the port offsets. */
  lemma EscalatedIff(latency: nat, effective: nat, maxLatency: nat, rangeMinimum: nat, offset: int)
    requires effective >= offset && effective >= latency && (maxLatency == 0 || latency <= maxLatency)
    requires rangeMinimum >= SAFETY_MARGIN
    ensures Escalated(latency, effective, maxLatency, rangeMinimum, offset) == Raised(effective, maxLatency, 1)
            <==> !(maxLatency != 0 && effective + UNDERRUN_STEP >= maxLatency && maxLatency <= offset)
  {
  }

  /** The effective latency after `n` escalations. */
  function EscalatedTimes(latency: nat, effective: nat, maxLatency: nat, rangeMinimum: nat, offset: int, n: nat): nat {
    if n == 0 then effective
    else
      Escalated(latency, EscalatedTimes(latency, effective, maxLatency, rangeMinimum, offset, n - 1),
                maxLatency, rangeMinimum, offset)
  }

  /** The closed form of any number of escalations. */
  lemma {:induction false} EscalationClosedForm(
      latency: nat, effective: nat, maxLatency: nat, rangeMinimum: nat, offset: int, n: nat)
    requires effective >= offset && effective >= latency && rangeMinimum >= SAFETY_MARGIN
    requires maxLatency == 0 || (latency <= maxLatency && offset < maxLatency)
    ensures EscalatedTimes(latency, effective, maxLatency, rangeMinimum, offset, n) == Raised(effective, maxLatency, n)
  {
    if n != 0 {
      EscalationClosedForm(latency, effective, maxLatency, rangeMinimum, offset, n - 1);
      EscalatedIff(latency, Raised(effective, maxLatency, n - 1), maxLatency, rangeMinimum, offset);
    }
  }

  // ----- The module's state in the main thread -----

  /** A sink or source as the module sees it. */
  datatype Device = Device(dynamic: bool, min: usec, max: usec, fixed: usec, offset: int, alsa: bool)

  predicate ValidDevice(d: Device) {
    d.min <= d.max
  }

  function TopLatency(d: Device): usec {
    if d.dynamic then d.max else d.fixed
  }

  /** The device's minimum, but at least 2.5 ms where the device can do that. */
  function LeastLatency(d: Device): usec {
    var floor := if TopLatency(d) < MIN_DEVICE_LATENCY then TopLatency(d) else MIN_DEVICE_LATENCY;
    if d.dynamic && d.min > floor then d.min else if d.dynamic then floor else d.fixed
  }

  /** Both bounds of a device: its range, where the least latency is raised to 2.5 ms,
      or to the greatest when that is less. */
  lemma BoundsOf(d: Device)
    requires ValidDevice(d)
    ensures var low, high := if d.dynamic then d.min else d.fixed, if d.dynamic then d.max else d.fixed;
            && TopLatency(d) == high && low <= LeastLatency(d) <= high
            && (LeastLatency(d) >= 2500 || LeastLatency(d) == high)
            && (LeastLatency(d) == low || LeastLatency(d) <= 2500)
  {
  }

  /** The conversion to int32_t. */
  function Int32(n: int): (r: int)
    ensures -0x8000_0000 <= r < 0x8000_0000 && (n - r) % 0x1_0000_0000 == 0
  {
    var m := n % 0x1_0000_0000;
    if m < 0x8000_0000 then m else m - 0x1_0000_0000
  }

  class Loopback {
    const latency: usec
    const maxLatency: usec
    const adjustTime: nat
    const fastThreshold: nat
    const fragmentMsec: nat
    const baseRate: nat
    var minSource: usec
    var maxSource: usec
    var minSink: usec
    var maxSink: usec
    var configuredSink: nat
    var configuredSource: nat
    var sourceOffset: int
    var sinkOffset: int
    var minimum: nat
    var underrunLimit: nat
    var fixedAlsa: bool
    var iterations: nat
    var underruns: nat
    var adjustCounter: nat
    var adjustSum: nat
    var realAdjustTime: nat
    var adjustStamp: nat
    var deviceChanged: bool
    var sinkRate: nat

    /** The state after the arguments are read: a maximum below the latency is raised to it. */
    constructor (latencyMsec: nat, maxLatencyMsec: nat, adjustTime: nat, fastThresholdMsec: nat,
        fragmentMsec: nat, baseRate: nat)
      requires 1 <= latencyMsec <= 30000 && maxLatencyMsec < 0x1_0000_0000 && baseRate > 0
      ensures Valid() && latency == latencyMsec * 1000 && (Ticking() <==> adjustTime > 0)
      ensures maxLatency == if maxLatencyMsec == 0 then 0 else Max(latencyMsec, maxLatencyMsec) * 1000
    {
      latency := latencyMsec * 1000;
      maxLatency := (if 0 < maxLatencyMsec < latencyMsec then latencyMsec else maxLatencyMsec) * 1000;
      this.adjustTime, fastThreshold, this.fragmentMsec := adjustTime, fastThresholdMsec * 1000, fragmentMsec;
      this.baseRate, sinkRate, realAdjustTime, adjustStamp := baseRate, baseRate, adjustTime, 0;
      minSource, maxSource, minSink, maxSink, configuredSink, configuredSource := 0, 0, 0, 0, 0, 0;
      sourceOffset, sinkOffset, minimum, underrunLimit, fixedAlsa := 0, 0, 0, 0, false;
      iterations, underruns, adjustCounter, adjustSum, deviceChanged := 0, 0, 0, 0, true;
    }

    ghost predicate Valid()
      reads this
    {
      && (maxLatency == 0 || latency <= maxLatency)
      && minSource <= maxSource && minSink <= maxSink
      && minimum >= Offset()
      && baseRate > 0
    }

    /** The time between two calls of adjust_rates is known not to be zero. */
    ghost predicate Ticking()
      reads this
    {
      realAdjustTime > 0 && adjustCounter <= adjustSum
    }

    function Offset(): int
      reads this
    {
      sinkOffset + sourceOffset
    }

    function Effective(): nat
      reads this
    {
      Max(latency, minimum)
    }

    function RangeLimit(): nat
      reads this
    {
      RangeMinimum(minSink, minSource, fixedAlsa, fragmentMsec)
    }

    method UpdateMinimumLatency()
      modifies this`minimum
      ensures minimum == MinimumLatency(underrunLimit, RangeLimit(), Offset())
    {
      if underrunLimit != 0 {
        minimum := underrunLimit;
      } else {
        minimum := minSink;
        if fixedAlsa {
          minimum := minimum + fragmentMsec * 1000;
        } else {
          minimum := minimum + minSource;
        }
        minimum := minimum * 11 / 10;
        minimum := minimum + SAFETY_MARGIN;
      }
      if -(sinkOffset + sourceOffset) <= minimum {
        minimum := minimum + (sinkOffset + sourceOffset);
      } else {
        minimum := 0;
      }
    }

    /** The part of update_latency_boundaries for one device: its range, with the
        minimum raised to 2.5 ms where the device allows it. */
    method Boundaries(d: Device) returns (min: usec, max: usec)
      requires ValidDevice(d)
      ensures min <= max && min == LeastLatency(d) && max == TopLatency(d)
    {
      if d.dynamic {
        min, max := d.min, d.max;
      } else {
        min, max := d.fixed, d.fixed;
      }
      if max >= MIN_DEVICE_LATENCY {
        min := if min > MIN_DEVICE_LATENCY then min else MIN_DEVICE_LATENCY;
      } else {
        min := max;
      }
    }

    /** update_latency_boundaries: a device that is not given keeps its figures. */
    method UpdateLatencyBoundaries(source: Option<Device>, sink: Option<Device>)
      requires source.Some? ==> ValidDevice(source.value)
      requires sink.Some? ==> ValidDevice(sink.value)
      requires minSource <= maxSource && minSink <= maxSink
      modifies this`minSource, this`maxSource, this`minSink, this`maxSink
      modifies this`sourceOffset, this`sinkOffset, this`fixedAlsa, this`minimum
      ensures minSource <= maxSource && minSink <= maxSink
      ensures source.None? ==> unchanged(`minSource, `maxSource, `sourceOffset, `fixedAlsa)
      ensures sink.None? ==> unchanged(`minSink, `maxSink, `sinkOffset)
      ensures source.Some? ==> minSource == LeastLatency(source.value) && maxSource == TopLatency(source.value)
      ensures sink.Some? ==> minSink == LeastLatency(sink.value) && maxSink == TopLatency(sink.value)
      ensures source.Some? ==> sourceOffset == source.value.offset
      ensures source.Some? ==> (fixedAlsa <==> source.value.alsa && !source.value.dynamic)
      ensures sink.Some? ==> sinkOffset == sink.value.offset
      ensures minimum == MinimumLatency(underrunLimit, RangeLimit(), Offset())
    {
      if source.Some? {
        fixedAlsa := !source.value.dynamic && source.value.alsa;
        sourceOffset := source.value.offset;
        minSource, maxSource := Boundaries(source.value);
      }
      if sink.Some? {
        sinkOffset := sink.value.offset;
        minSink, maxSink := Boundaries(sink.value);
      }
      UpdateMinimumLatency();
    }

    /** set_sink_input_latency; `grant` is what the sink makes of a request. */
    method SetSinkInputLatency(grant: nat -> nat)
      modifies this`configuredSink
      ensures configuredSink == grant(Ask(latency, Effective(), minSource, minSink, maxSink))
    {
      var requested: nat := latency / 3;
      if minSource > requested {
        requested := Sub64(Effective(), minSource) / 2;
      }
      configuredSink := grant(Clamp(requested, minSink, maxSink));
    }

    method SetSourceOutputLatency(grant: nat -> nat)
      modifies this`configuredSource
      ensures configuredSource == grant(Ask(latency, Effective(), minSink, minSource, maxSource))
    {
      var requested: nat := latency / 3;
      if minSink > requested {
        requested := Sub64(Effective(), minSink) / 2;
      }
      configuredSource := grant(Clamp(requested, minSource, maxSource));
    }

    /** Both devices are asked for their share, and grant it. */
    method DivideBudget()
      requires minSource <= maxSource && minSink <= maxSink
      modifies this`configuredSink, this`configuredSource
      ensures configuredSink + configuredSource <= Effective() <==> minSink as int + minSource as int <= Effective()
      ensures minSink <= configuredSink <= maxSink && minSource <= configuredSource <= maxSource
    {
      SetSinkInputLatency(asked => asked);
      SetSourceOutputLatency(asked => asked);
      BudgetIff(latency, Effective(), minSink, maxSink, minSource, maxSource);
    }

    /** The set-up in pa__init: with devices that grant what is asked, sink and
        source latency together stay within the effective latency exactly when
        the two minima do; and they do when the ports have no negative offset,
        the source is no fixed-latency ALSA source and no underrun was seen. */
    method SetUp(source: Device, sink: Device)
      requires Valid() && ValidDevice(source) && ValidDevice(sink)
      modifies this`minSource, this`maxSource, this`minSink, this`maxSink, this`sourceOffset, this`sinkOffset
      modifies this`fixedAlsa, this`minimum, this`configuredSink, this`configuredSource
      ensures Valid() && Offset() == source.offset + sink.offset
      ensures configuredSink + configuredSource <= Effective() <==> minSink as int + minSource as int <= Effective()
      ensures Offset() >= 0 && !fixedAlsa && underrunLimit == 0 ==> configuredSink + configuredSource <= Effective()
      ensures minSink <= configuredSink <= maxSink && minSource <= configuredSource <= maxSource
    {
      UpdateLatencyBoundaries(Some(source), Some(sink));
      if Offset() >= 0 && !fixedAlsa && underrunLimit == 0 {
        MinimumCoversBoth(minSink, minSource, fragmentMsec, Offset());
      }
      DivideBudget();
    }

    /** The reaction of adjust_rates to more than two underruns. */
    method Escalate()
      requires Valid()
      modifies this`underrunLimit, this`minimum, this`underruns
      ensures Valid() && underruns == 0
      ensures Effective() == Escalated(latency, old(Effective()), maxLatency, RangeLimit(), Offset())
      ensures maxLatency == 0 || Offset() < maxLatency ==> Effective() == Raised(old(Effective()), maxLatency, 1)
    {
      EscalatedIff(latency, Effective(), maxLatency, RangeLimit(), Offset());
      var target := Effective() + UNDERRUN_STEP;
      if maxLatency == 0 || target < maxLatency {
        underrunLimit := ClipSub(target, sinkOffset + sourceOffset);
      } else {
        underrunLimit := ClipSub(maxLatency, sinkOffset + sourceOffset);
      }
      UpdateMinimumLatency();
      underruns := 0;
    }

    function Hours(n: nat): (h: nat)
      reads this
      ensures h * 3_600_000_000 <= n * realAdjustTime < (h + 1) * 3_600_000_000
    {
      n * realAdjustTime / 1_000_000 / 3600
    }

    /** The averaged time between two calls, left alone after a device change or
        when the system was asleep. */
    method UpdateAdjustTime(now: nat)
      requires now >= adjustStamp
      modifies this`adjustCounter, this`adjustSum, this`realAdjustTime, this`adjustStamp
      ensures adjustStamp == now && (old(Ticking()) && now > old(adjustStamp) ==> Ticking())
      ensures deviceChanged || (now - old(adjustStamp)) * 100 >= adjustTime * 105 ==>
                unchanged(`adjustCounter, `adjustSum, `realAdjustTime)
      ensures !deviceChanged && (now - old(adjustStamp)) * 100 < adjustTime * 105 ==>
                && adjustCounter == old(adjustCounter) + 1
                && adjustSum == old(adjustSum) + (now - old(adjustStamp))
                && realAdjustTime == adjustSum / adjustCounter
    {
      var passed := now - adjustStamp;
      if !deviceChanged && passed * 100 < adjustTime * 105 {
        adjustCounter := adjustCounter + 1;
        adjustSum := adjustSum + passed;
        realAdjustTime := adjustSum / adjustCounter;
        if adjustCounter <= adjustSum {
          AverageAtLeastOne(adjustSum, adjustCounter);
        }
      }
      adjustStamp := now;
    }

    /** The first part of adjust_rates: escalate after too many underruns, and
        forgive one underrun an hour. */
    method HandleUnderruns()
      requires Valid()
      modifies this`iterations, this`underrunLimit, this`minimum, this`underruns
      ensures Valid() && iterations == old(iterations) + 1
      ensures old(underruns) <= 2 ==> unchanged(`minimum, `underrunLimit)
      ensures old(underruns) <= 2 ==>
        underruns == ClipSub(old(underruns), if Hours(iterations) > Hours(old(iterations)) then 1 else 0)
      ensures old(underruns) > 2 ==>
                && underruns == 0
                && Effective() == Escalated(latency, old(Effective()), maxLatency, RangeLimit(), Offset())
    {
      var runHours := Hours(iterations);
      iterations := iterations + 1;
      if underruns > 2 {
        Escalate();
      }
      if Hours(iterations) > runHours {
        underruns := ClipSub(underruns, 1);
      }
    }

    /** The last part: the rate controller decides, unless the difference is so
        large that the queue is corrected instead. Divided by an adjust time of
        zero, the rate can be anything. */
    method Steer(difference: int) returns (fast: bool)
      requires Valid()
      modifies this`sinkRate, this`deviceChanged
      ensures Valid() && deviceChanged == fast
      ensures fast <==> fastThreshold > 0 && Abs(difference) > fastThreshold
      ensures fast ==> sinkRate == old(sinkRate)
      ensures !fast && realAdjustTime > 0 ==>
        sinkRate == RateController(baseRate, realAdjustTime, difference) && Within(baseRate, sinkRate)
    {
      fast := fastThreshold > 0 && Abs(difference) > fastThreshold;
      if fast {
        deviceChanged := true;
      } else {
        if realAdjustTime > 0 {
          RateNatural(baseRate, realAdjustTime, difference);
          sinkRate := RateController(baseRate, realAdjustTime, difference);
        } else {
          sinkRate := *;
        }
        deviceChanged := false;
      }
    }

    /** adjust_rates, given the fill level of the queue in microseconds and the
        sum of sink and source latency: while the clock moves on between the calls,
        a rate it sets stays within one percent of the base rate, on the side that
        shrinks the difference. */
    method AdjustRates(now: nat, bufferLatency: nat, deviceLatency: int) returns (fast: bool, difference: int)
      requires Valid() && now >= adjustStamp
      modifies this`iterations, this`underrunLimit, this`minimum, this`underruns, this`adjustCounter
      modifies this`adjustSum, this`realAdjustTime, this`adjustStamp, this`sinkRate, this`deviceChanged
      ensures Valid() && (old(Ticking()) && now > old(adjustStamp) ==> Ticking())
      ensures difference == Int32(deviceLatency + AtBaseRate(bufferLatency, old(sinkRate), baseRate) - Effective())
      ensures fast <==> fastThreshold > 0 && Abs(difference) > fastThreshold
      ensures fast ==> sinkRate == old(sinkRate)
      ensures !fast && realAdjustTime > 0 ==> Within(baseRate, sinkRate)
      ensures !fast && realAdjustTime > 0 && difference >= 0 ==> sinkRate >= baseRate
      ensures !fast && realAdjustTime > 0 && difference <= 0 ==> sinkRate <= baseRate
      ensures old(underruns) <= 2 ==> unchanged(`minimum, `underrunLimit)
      ensures old(underruns) > 2 ==>
        Effective() == Escalated(latency, old(Effective()), maxLatency, RangeLimit(), Offset())
    {
      HandleUnderruns();
      UpdateAdjustTime(now);
      difference := Int32(deviceLatency + AtBaseRate(bufferLatency, sinkRate, baseRate) - Effective());
      fast := Steer(difference);
      if realAdjustTime > 0 {
        RateBounded(baseRate, realAdjustTime, difference);
      }
    }
  }

  /** The buffered latency once the rate is back at the base rate. */
  function AtBaseRate(bufferLatency: nat, rate: nat, base: nat): nat
    requires base > 0
  {
    bufferLatency * rate / base
  }

  /** As many frames as the buffer holds now, at the base rate, rounded down. */
  lemma AtBaseRateIs(bufferLatency: nat, rate: nat, base: nat)
    requires base > 0
    ensures var r := AtBaseRate(bufferLatency, rate, base);
            r * base <= bufferLatency * rate < (r + 1) * base
  {
    Quotient(bufferLatency * rate, base);
  }

  lemma Quotient(a: nat, b: nat)
    requires b > 0
    ensures a / b * b <= a < (a / b + 1) * b
  {
    assert a == a / b * b + a % b;
  }

  lemma AverageAtLeastOne(sum: nat, count: nat)
    requires 0 < count <= sum
    ensures sum / count > 0
  {
  }

  lemma RateNatural(base: nat, adjustTime: nat, difference: int)
    requires adjustTime > 0 && base > 0
    ensures RateController(base, adjustTime, difference) >= 0
    ensures Within(base, RateController(base, adjustTime, difference))
  {
    RateBounded(base, adjustTime, difference);
    assert 0.99 * base as real - 1.0 > -1.0;
  }
}
