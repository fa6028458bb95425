/** How module-equalizer-sink.c turns control points into a filter and reads them
    back: piecewise-linear interpolation, and two slots per channel of which one is
    published and the other written. Coefficients are reals. */
module EqualizerFilter {
  import opened Common

  datatype Result<T> = Ok(value: T) | Err(error: Error)
  datatype Error = InvalidChannel | BadPoints | BadLength | BadEnds

  // ----- Control points -----

  predicate Increasing(xs: seq<nat>) {
    forall i, j :: 0 <= i < j < |xs| ==> xs[i] < xs[j]
  }

  /** is_monotonic only compares neighbours. */
  method IsMonotonic(xs: seq<nat>) returns (r: bool)
    ensures r <==> Increasing(xs)
  {
    if |xs| < 2 {
      return true;
    }
    for i := 1 to |xs|
      invariant Increasing(xs[..i])
    {
      if xs[i] <= xs[i - 1] {
        return false;
      }
      Extends(xs, i);
    }
    assert xs[..|xs|] == xs;
    return true;
  }

  lemma Extends(xs: seq<nat>, i: nat)
    requires 0 < i < |xs| && Increasing(xs[..i]) && xs[i - 1] < xs[i]
    ensures Increasing(xs[..i + 1])
  {
  }

  /** Knots from 0 to the last of `length` positions. */
  predicate Knots(xs: seq<nat>, ys: seq<real>, length: nat) {
    |xs| == |ys| >= 2 && Increasing(xs) && xs[0] == 0 && xs[|xs| - 1] == length - 1
  }

  /** The value `y` at `x` lies on the line through knots `k` and `k + 1`. */
  predicate OnLine(xs: seq<nat>, ys: seq<real>, k: nat, x: nat, y: real)
    requires k + 1 < |xs| == |ys|
  {
    y * (xs[k + 1] as real - xs[k] as real)
    == ys[k] * (xs[k + 1] as real - x as real) + ys[k + 1] * (x as real - xs[k] as real)
  }

  predicate Within(xs: seq<nat>, k: nat, x: nat)
    requires k + 1 < |xs|
  {
    xs[k] <= x <= xs[k + 1]
  }

  /** The samples follow the knots: each lies on the line of every segment it is in. */
  predicate Follows(xs: seq<nat>, ys: seq<real>, samples: seq<real>)
    requires |xs| == |ys|
  {
    forall k: nat, x: nat :: k + 1 < |xs| && x < |samples| && Within(xs, k, x) ==> OnLine(xs, ys, k, x, samples[x])
  }

  // ----- Interpolation -----

  lemma LineEquation(lo: real, hi: real, x: real, a: real, b: real) returns (c0: real)
    requires lo < hi && lo <= x <= hi
    ensures c0 == (x - lo) / (hi - lo) && 0.0 <= c0 <= 1.0
    ensures ((1.0 - c0) * a + c0 * b) * (hi - lo) == a * (hi - x) + b * (x - lo)
  {
    var d := hi - lo;
    c0 := (x - lo) / d;
    assert c0 * d == x - lo;
    InUnit(c0, d, x - lo);
    Distribute(c0, d, a, b, x - lo);
  }

  lemma InUnit(c0: real, d: real, p: real)
    requires d > 0.0 && c0 * d == p && 0.0 <= p <= d
    ensures 0.0 <= c0 <= 1.0
  {
  }

  lemma Distribute(c0: real, d: real, a: real, b: real, p: real)
    requires c0 * d == p
    ensures ((1.0 - c0) * a + c0 * b) * d == a * (d - p) + b * p
  {
  }

  /** Segments that share a position agree there. */
  lemma Neighbours(xs: seq<nat>, ys: seq<real>, k: nat, l: nat, x: nat, y: real)
    requires |xs| == |ys| && Increasing(xs) && k + 1 < |xs| && l + 1 < |xs|
    requires Within(xs, k, x) && Within(xs, l, x) && OnLine(xs, ys, l, x, y)
    ensures OnLine(xs, ys, k, x, y)
  {
    if k < l {
      assert x == xs[l] && k + 1 == l;
      AtLeftKnot(xs, ys, l, y);
      OnRightKnot(xs, ys, k);
    } else if l < k {
      assert x == xs[k] && l + 1 == k;
      AtRightKnot(xs, ys, l, y);
      OnLeftKnot(xs, ys, k);
    }
  }

  lemma LeftEnd(y: real, a: real, b: real, lo: real, hi: real)
    requires lo < hi && y * (hi - lo) == a * (hi - lo) + b * (lo - lo)
    ensures y == a
  {
  }

  lemma RightEnd(y: real, a: real, b: real, lo: real, hi: real)
    requires lo < hi && y * (hi - lo) == a * (hi - hi) + b * (hi - lo)
    ensures y == b
  {
  }

  lemma AtLeftKnot(xs: seq<nat>, ys: seq<real>, l: nat, y: real)
    requires l + 1 < |xs| == |ys| && xs[l] < xs[l + 1] && OnLine(xs, ys, l, xs[l], y)
    ensures y == ys[l]
  {
    LeftEnd(y, ys[l], ys[l + 1], xs[l] as real, xs[l + 1] as real);
  }

  lemma AtRightKnot(xs: seq<nat>, ys: seq<real>, l: nat, y: real)
    requires l + 1 < |xs| == |ys| && xs[l] < xs[l + 1] && OnLine(xs, ys, l, xs[l + 1], y)
    ensures y == ys[l + 1]
  {
    RightEnd(y, ys[l], ys[l + 1], xs[l] as real, xs[l + 1] as real);
  }

  lemma OnLeftKnot(xs: seq<nat>, ys: seq<real>, k: nat)
    requires k + 1 < |xs| == |ys|
    ensures OnLine(xs, ys, k, xs[k], ys[k])
  {
  }

  lemma OnRightKnot(xs: seq<nat>, ys: seq<real>, k: nat)
    requires k + 1 < |xs| == |ys|
    ensures OnLine(xs, ys, k, xs[k + 1], ys[k + 1])
  {
  }

  /** interpolate, with the assertions that it makes on the way. */
  method Interpolate(samples: array<real>, xs: seq<nat>, ys: seq<real>)
    requires Knots(xs, ys, samples.Length)
    modifies samples
    ensures Follows(xs, ys, samples[..])
  {
    var lower: nat := 0;
    for x := 0 to samples.Length - 1
      invariant lower + 1 < |xs| && Within(xs, lower, x)
      invariant forall k: nat, i: nat :: k + 1 < |xs| && i < x && Within(xs, k, i) ==> OnLine(xs, ys, k, i, samples[i])
    {
      samples[x] := Point(xs, ys, lower, x);
      forall k: nat | k + 1 < |xs| && Within(xs, k, x)
        ensures OnLine(xs, ys, k, x, samples[x])
      {
        Neighbours(xs, ys, k, lower, x, samples[x]);
      }
      lower := Advance(xs, lower, x, samples.Length);
    }
    var last := samples.Length - 1;
    samples[last] := ys[|xs| - 1];
    forall k: nat | k + 1 < |xs| && Within(xs, k, last)
      ensures OnLine(xs, ys, k, last, samples[last])
    {
      OnRightKnot(xs, ys, |xs| - 2);
      Neighbours(xs, ys, k, |xs| - 2, last, samples[last]);
    }
  }

  /** One point of the line between two knots. */
  method Point(xs: seq<nat>, ys: seq<real>, lower: nat, x: nat) returns (y: real)
    requires |xs| == |ys| && lower + 1 < |xs| && Increasing(xs) && Within(xs, lower, x)
    ensures OnLine(xs, ys, lower, x, y)
  {
    var lo, hi := xs[lower] as real, xs[lower + 1] as real;
    var c0 := (x as real - lo) / (hi - lo);
    ghost var c := LineEquation(lo, hi, x as real, ys[lower], ys[lower + 1]);
    assert 0.0 <= c0 <= 1.0;
    y := (1.0 - c0) * ys[lower] + c0 * ys[lower + 1];
  }

  /** The inner loop: on to the segment that the next position is in. */
  method Advance(xs: seq<nat>, from: nat, x: nat, length: nat) returns (lower: nat)
    requires |xs| >= 2 && Increasing(xs) && xs[|xs| - 1] == length - 1 && x < length - 1
    requires from + 1 < |xs| && Within(xs, from, x)
    ensures lower + 1 < |xs| && Within(xs, lower, x + 1)
  {
    lower := from;
    while x >= xs[lower + 1]
      invariant lower + 1 < |xs| && xs[lower] <= x
      decreases |xs| - lower
    {
      lower := lower + 1;
    }
  }

  /** The curve passes through every knot. */
  lemma ThroughKnots(xs: seq<nat>, ys: seq<real>, samples: seq<real>, k: nat)
    requires Knots(xs, ys, |samples|) && Follows(xs, ys, samples) && k < |xs|
    ensures xs[k] < |samples| && samples[xs[k]] == ys[k]
  {
    if k + 1 < |xs| {
      assert xs[k] < xs[k + 1];
      if k + 1 < |xs| - 1 { assert xs[k + 1] < xs[|xs| - 1]; }
      assert Within(xs, k, xs[k]);
      AtLeftKnot(xs, ys, k, samples[xs[k]]);
    } else {
      assert xs[k - 1] < xs[k];
      assert Within(xs, k - 1, xs[k]);
      AtRightKnot(xs, ys, k - 1, samples[xs[k]]);
    }
  }

  predicate Between(a: real, y: real, b: real) {
    a <= y <= b || b <= y <= a
  }

  /** Between two knots it stays between their values. */
  lemma BetweenKnots(xs: seq<nat>, ys: seq<real>, samples: seq<real>, k: nat, x: nat)
    requires Knots(xs, ys, |samples|) && Follows(xs, ys, samples) && k + 1 < |xs| && Within(xs, k, x)
    ensures x < |samples| && Between(ys[k], samples[x], ys[k + 1])
  {
    assert xs[k + 1] <= xs[|xs| - 1] by { if k + 1 < |xs| - 1 { assert xs[k + 1] < xs[|xs| - 1]; } }
    assert xs[k] < xs[k + 1];
    Weighted(samples[x], ys[k], ys[k + 1], xs[k + 1] as real - x as real, x as real - xs[k] as real);
  }

  lemma Weighted(y: real, a: real, b: real, p: real, q: real)
    requires p >= 0.0 && q >= 0.0 && p + q > 0.0 && y * (p + q) == a * p + b * q
    ensures Between(a, y, b)
  {
    assert (y - a) * (p + q) == (b - a) * q;
    assert (b - y) * (p + q) == (b - a) * p;
    SameSign(y - a, p + q, b - a, q);
    SameSign(b - y, p + q, b - a, p);
  }

  lemma SameSign(u: real, m: real, v: real, n: real)
    requires m > 0.0 && n >= 0.0 && u * m == v * n
    ensures (v >= 0.0 ==> u >= 0.0) && (v <= 0.0 ==> u <= 0.0)
  {
  }

  // ----- Two slots per channel -----

  /** A filter as it is stored, divided by the transform's gain, and its preamp. */
  datatype Slot = Slot(h: seq<real>, preamp: real)

  function Scaled(h: seq<real>, fft: nat): seq<real> {
    seq(|h|, i requires 0 <= i < |h| => h[i] * fft as real)
  }

  /** At the knots, the stored filter times the gain of the two transforms gives the values. */
  predicate AtKnots(xs: seq<nat>, ys: seq<real>, h: seq<real>, fft: nat)
    requires |xs| == |ys|
  {
    forall k :: 0 <= k < |xs| ==> xs[k] < |h| && h[xs[k]] * fft as real == ys[k]
  }

  lemma StoredAtKnots(xs: seq<nat>, ys: seq<real>, h: seq<real>, fft: nat)
    requires Knots(xs, ys, |h|) && Follows(xs, ys, Scaled(h, fft))
    ensures AtKnots(xs, ys, h, fft)
  {
    forall k | 0 <= k < |xs|
      ensures xs[k] < |h| && h[xs[k]] * fft as real == ys[k]
    {
      ThroughKnots(xs, ys, Scaled(h, fft), k);
    }
  }

  /** What a request to seed a filter is answered with, checks in their order. */
  function SeedError(channels: nat, fft: nat, channel: nat, xs: seq<nat>, ys: seq<real>): Option<Error> {
    if channel > channels then Some(InvalidChannel)
    else if !Increasing(xs) || exists i :: 0 <= i < |xs| && xs[i] >= fft / 2 + 1 then Some(BadPoints)
    else if |xs| != |ys| || |xs| < 2 || |xs| > fft / 2 + 1 then Some(BadLength)
    else if xs[0] != 0 || xs[|xs| - 1] != fft / 2 then Some(BadEnds)
    else None
  }

  lemma {:induction false} IncreasingIsShort(xs: seq<nat>, n: nat)
    requires Increasing(xs) && |xs| > 0 && n == |xs| - 1
    ensures xs[n] >= n
  {
    if n > 0 {
      IncreasingIsShort(xs[..n], n - 1);
      assert xs[n - 1] < xs[n];
    }
  }

  /** Which check fails first. The check that there are not too many points never does. */
  lemma FirstFailingCheck(channels: nat, fft: nat, channel: nat, xs: seq<nat>, ys: seq<real>)
    ensures var e := SeedError(channels, fft, channel, xs, ys);
            var inOrder := Increasing(xs) && forall i :: 0 <= i < |xs| ==> 2 * xs[i] <= fft;
            && (e == Some(InvalidChannel) <==> channel > channels)
            && (e == Some(BadPoints) <==> channel <= channels && !inOrder)
            && (e == Some(BadLength) <==> channel <= channels && inOrder && (|xs| != |ys| || |xs| < 2))
            && (e == Some(BadEnds) <==> channel <= channels && inOrder && |xs| == |ys| >= 2
                                        && (xs[0] != 0 || xs[|xs| - 1] != fft / 2))
  {
    if Increasing(xs) && |xs| > 0 {
      IncreasingIsShort(xs, |xs| - 1);
    }
  }

  /** Exactly the knot lists from 0 to fft / 2 on an existing channel are accepted. */
  lemma SeedAcceptedIff(channels: nat, fft: nat, channel: nat, xs: seq<nat>, ys: seq<real>)
    ensures SeedError(channels, fft, channel, xs, ys) == None <==> channel <= channels && Knots(xs, ys, fft / 2 + 1)
  {
    if Knots(xs, ys, fft / 2 + 1) {
      IncreasingIsShort(xs, |xs| - 1);
      forall i | 0 <= i < |xs|
        ensures xs[i] < fft / 2 + 1
      {
        if i < |xs| - 1 {
          assert xs[i] < xs[|xs| - 1];
        }
      }
    }
  }

  class Filters {
    const channels: nat
    const fft: nat
    const slots: array2<Slot>
    const current: array<nat>   // which slot of a channel is published

    constructor (channels: nat, fft: nat)
      requires channels > 0 && fft >= 2
      ensures Valid() && this.channels == channels && this.fft == fft && fresh(slots) && fresh(current)
    {
      this.channels, this.fft := channels, fft;
      slots := new Slot[channels, 2]((c, w) => Slot(seq(fft / 2 + 1, i => 1.0 / fft as real), 1.0));
      current := new nat[channels](c => 0);
    }

    ghost predicate Valid()
      reads this, slots, current
    {
      && channels > 0 && fft >= 2 && slots.Length0 == channels && slots.Length1 == 2 && current.Length == channels
      && (forall c :: 0 <= c < channels ==> current[c] < 2)
      && forall c, w :: 0 <= c < channels && 0 <= w < 2 ==> |slots[c, w].h| == fft / 2 + 1
    }

    /** What a reader of channel `c` sees. */
    function Published(c: nat): Slot
      requires Valid() && c < channels
      reads this, slots, current
    {
      slots[c, current[c]]
    }

    /** Write the hidden slot of a channel and publish it. */
    method Publish(c: nat, slot: Slot)
      requires Valid() && c < channels && |slot.h| == fft / 2 + 1
      modifies slots, current
      ensures Valid() && Published(c) == slot
      ensures forall d :: 0 <= d < channels && d != c ==> Published(d) == old(Published(d))
    {
      var hidden := 1 - current[c];
      slots[c, hidden] := slot;
      current[c] := hidden;
    }

    /** equalizer_handle_seed_filter. */
    method SeedFilter(channel: nat, xs: seq<nat>, ys: seq<real>, preamp: real) returns (error: Option<Error>)
      requires Valid()
      modifies slots, current
      ensures Valid() && error == SeedError(channels, fft, channel, xs, ys)
      ensures error.Some? ==> forall c :: 0 <= c < channels ==> Published(c) == old(Published(c))
      ensures error.None? ==> Knots(xs, ys, fft / 2 + 1) && forall c :: 0 <= c < channels ==>
                if c == channel || channel == channels
                then
                  && Published(c).preamp == preamp && Follows(xs, ys, Scaled(Published(c).h, fft))
                  && AtKnots(xs, ys, Published(c).h, fft)
                else Published(c) == old(Published(c))
    {
      error := CheckSeed(channel, xs, ys);
      SeedAcceptedIff(channels, fft, channel, xs, ys);
      if error.Some? {
        return;
      }
      var h := MakeFilter(xs, ys);
      var first := if channel == channels then 0 else channel;
      if channel == channels {
        for c := 1 to channels
          invariant Valid()
          invariant forall d :: 1 <= d < c ==> Published(d) == Slot(h, preamp)
        {
          Publish(c, Slot(h, preamp));
        }
      }
      Publish(first, Slot(h, preamp));
    }

    method CheckSeed(channel: nat, xs: seq<nat>, ys: seq<real>) returns (error: Option<Error>)
      ensures error == SeedError(channels, fft, channel, xs, ys)
    {
      if channel > channels {
        return Some(InvalidChannel);
      }
      var good := PointsGood(xs);
      var monotonic := IsMonotonic(xs);
      if !monotonic || !good {
        return Some(BadPoints);
      } else if |xs| != |ys| || |xs| < 2 || |xs| > fft / 2 + 1 {
        return Some(BadLength);
      } else if xs[0] != 0 || xs[|xs| - 1] != fft / 2 {
        return Some(BadEnds);
      }
      return None;
    }

    method PointsGood(xs: seq<nat>) returns (good: bool)
      ensures good <==> forall i :: 0 <= i < |xs| ==> xs[i] < fft / 2 + 1
    {
      for i := 0 to |xs|
        invariant forall j :: 0 <= j < i ==> xs[j] < fft / 2 + 1
      {
        if xs[i] >= fft / 2 + 1 {
          return false;
        }
      }
      return true;
    }

    /** interpolate, then fix_filter. */
    method MakeFilter(xs: seq<nat>, ys: seq<real>) returns (h: seq<real>)
      requires fft >= 2 && Knots(xs, ys, fft / 2 + 1)
      ensures |h| == fft / 2 + 1 && Follows(xs, ys, Scaled(h, fft)) && AtKnots(xs, ys, h, fft)
    {
      var samples := new real[fft / 2 + 1];
      Interpolate(samples, xs, ys);
      ghost var curve := samples[..];
      for i := 0 to samples.Length
        invariant forall j :: 0 <= j < i ==> samples[j] * fft as real == curve[j]
        invariant forall j :: i <= j < samples.Length ==> samples[j] == curve[j]
      {
        Undone(samples[i], fft);
        samples[i] := samples[i] / fft as real;
      }
      h := samples[..];
      ghost var scaled := Scaled(h, fft);
      forall i | 0 <= i < |h|
        ensures scaled[i] == curve[i]
      {
        assert scaled[i] == h[i] * fft as real;
      }
      assert scaled == curve;
      StoredAtKnots(xs, ys, h, fft);
    }

    /** equalizer_handle_get_filter_points. */
    method GetFilterPoints(channel: nat, xs: seq<nat>) returns (r: Result<(seq<real>, real)>)
      requires Valid()
      ensures channel > channels <==> r == Err(InvalidChannel)
      ensures channel <= channels ==>
                (r == Err(BadPoints) <==> |xs| > fft / 2 + 1 || exists i :: 0 <= i < |xs| && xs[i] >= fft / 2 + 1)
      ensures r.Err? ==> r.error == InvalidChannel || r.error == BadPoints
      ensures r.Ok? ==> channel <= channels && |r.value.0| == |xs|
      ensures r.Ok? ==> var slot := Published(if channel == channels then 0 else channel);
                && r.value.1 == slot.preamp
                && forall i :: 0 <= i < |xs| ==> xs[i] < |slot.h| && r.value.0[i] == Scaled(slot.h, fft)[xs[i]]
    {
      if channel > channels {
        return Err(InvalidChannel);
      }
      var good := PointsGood(xs);
      if |xs| > fft / 2 + 1 || !good {
        return Err(BadPoints);
      }
      var slot := Published(if channel == channels then 0 else channel);
      var ys := ReadAt(slot.h, xs);
      return Ok((ys, slot.preamp));
    }

    method ReadAt(h: seq<real>, xs: seq<nat>) returns (ys: seq<real>)
      requires forall i :: 0 <= i < |xs| ==> xs[i] < |h|
      ensures |ys| == |xs| && forall i :: 0 <= i < |xs| ==> ys[i] == Scaled(h, fft)[xs[i]]
    {
      ys := [];
      for i := 0 to |xs|
        invariant |ys| == i && forall j :: 0 <= j < i ==> ys[j] == Scaled(h, fft)[xs[j]]
      {
        ys := ys + [h[xs[i]] * fft as real];
      }
    }
  }

  lemma Undone(y: real, n: nat)
    requires n > 0
    ensures y / n as real * n as real == y
  {
  }

  /** Reading back an accepted filter at its knots gives the points and the preamp
      that were set, on the channel they were set for or on any when all were meant. */
  method RoundTrip(f: Filters, channel: nat, reader: nat, xs: seq<nat>, ys: seq<real>, preamp: real)
    returns (error: Option<Error>, r: Result<(seq<real>, real)>)
    requires f.Valid() && reader < f.channels && (reader == channel || channel == f.channels)
    modifies f.slots, f.current
    ensures error.None? <==> Knots(xs, ys, f.fft / 2 + 1)
    ensures error.None? ==> r == Ok((ys, preamp))
  {
    error := f.SeedFilter(channel, xs, ys, preamp);
    SeedAcceptedIff(f.channels, f.fft, channel, xs, ys);
    r := f.GetFilterPoints(reader, xs);
    if error.None? {
      ReadsBack(xs, ys, Scaled(f.Published(reader).h, f.fft), f.fft / 2 + 1);
      IncreasingIsShort(xs, |xs| - 1);
      assert |xs| <= f.fft / 2 + 1 && forall i :: 0 <= i < |xs| ==> xs[i] < f.fft / 2 + 1;
      assert r != Err(BadPoints);
      assert r.value.0 == ys;
    }
  }

  lemma ReadsBack(xs: seq<nat>, ys: seq<real>, samples: seq<real>, size: nat)
    requires |samples| == size && Knots(xs, ys, size) && Follows(xs, ys, samples)
    ensures forall i :: 0 <= i < |xs| ==> xs[i] < size && samples[xs[i]] == ys[i]
  {
    forall i | 0 <= i < |xs|
      ensures xs[i] < size && samples[xs[i]] == ys[i]
    {
      ThroughKnots(xs, ys, samples, i);
    }
  }
}
