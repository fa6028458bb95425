/** The streaming filter of module-equalizer-sink.c, for one channel: input
    arrives in chunks of any size, is cut into overlapping windows, filtered
    window by window and added up again. The arithmetic on samples and the filtering
    of one zero-padded window (forward transform, multiplication, inverse
    transform) are arbitrary functions. */
module OverlapAdd {
  import opened Common

  /** A sample, as the bit pattern of a float. */
  datatype Sample = Float(bits: nat)

  /** The arithmetic on samples, whatever it is: nothing below depends on it being
      exact. `negligible` is the comparison with FLT_EPSILON. */
  datatype Arithmetic = Arithmetic(
    zero: Sample,
    add: (Sample, Sample) -> Sample,
    mul: (Sample, Sample) -> Sample,
    div: (Sample, Sample) -> Sample,
    clamp: Sample -> Sample,
    negligible: Sample -> bool)

  /** `hop` is R, `stream` the endless input of the sink, and `filter(w, j)` the
      sample `j` of the filtered window `w`. */
  datatype Config = Config(
    hop: nat,
    window: seq<Sample>,
    fft: nat,
    gain: Sample,
    ops: Arithmetic,
    filter: (seq<Sample>, nat) -> Sample,
    stream: nat -> Sample)

  predicate ValidConfig(c: Config) {
    c.hop >= 2 && |c.window| == 2 * c.hop - 1
  }

  /** What is asserted before samples are processed: a window fits into the transform. */
  predicate Fits(c: Config) {
    |c.window| <= c.fft
  }

  function Overlap(c: Config): nat
    requires ValidConfig(c)
  {
    |c.window| - c.hop
  }

  // ----- The whole-signal reference -----

  /** The signal as the filter hears it: the clamped input, but silence where a
      sample was lost. */
  function Heard(c: Config, lost: Option<nat>, i: nat): Sample {
    if lost == Some(i) then c.ops.zero else c.ops.clamp(c.stream(i))
  }

  function HeardFrom(c: Config, lost: Option<nat>, start: nat, n: nat): seq<Sample> {
    seq(n, i requires i >= 0 => Heard(c, lost, start + i))
  }

  /** A window of samples, weighted and padded with zeros to the transform's size. */
  function Windowed(c: Config, s: seq<Sample>): seq<Sample>
    requires ValidConfig(c) && |s| == |c.window|
  {
    seq(c.fft, j requires 0 <= j < c.fft =>
      if j < |s| then c.ops.mul(c.ops.mul(c.gain, c.window[j]), s[j]) else c.ops.zero)
  }

  /** Where window `n` starts: n times the hop. */
  function Start(c: Config, n: nat): nat {
    if n == 0 then 0 else Start(c, n - 1) + c.hop
  }

  /** Sample `j` of the filtered window `n`. */
  function Filtered(c: Config, lost: Option<nat>, n: nat, j: nat): Sample
    requires ValidConfig(c)
  {
    c.filter(Windowed(c, HeardFrom(c, lost, Start(c, n), |c.window|)), j)
  }

  /** What the previous window adds to position `j` of window `n`. */
  function Tail(c: Config, lost: Option<nat>, n: nat, j: nat): Sample
    requires ValidConfig(c)
  {
    if n == 0 then c.ops.zero else Filtered(c, lost, n - 1, c.hop + j)
  }

  /** Undoing the window where it is not zero, as is done for the first block. */
  function Unwindowed(c: Config, first: bool, j: nat, x: Sample): Sample
    requires ValidConfig(c) && j < |c.window|
  {
    if first && j < Overlap(c) && !c.ops.negligible(c.window[j]) then c.ops.div(x, c.window[j]) else x
  }

  /** Block `n` of the whole-signal overlap-add, one hop long. */
  function Block(c: Config, lost: Option<nat>, n: nat): (b: seq<Sample>)
    requires ValidConfig(c)
    ensures |b| == c.hop
  {
    seq(c.hop, j requires 0 <= j < c.hop =>
      c.ops.clamp(Unwindowed(c, n == 0, j,
        if j < Overlap(c) then c.ops.add(Filtered(c, lost, n, j), Tail(c, lost, n, j)) else Filtered(c, lost, n, j))))
  }

  function OverlapAdded(c: Config, lost: Option<nat>, blocks: nat): seq<Sample>
    requires ValidConfig(c)
  {
    if blocks == 0 then [] else OverlapAdded(c, lost, blocks - 1) + Block(c, lost, blocks - 1)
  }

  // ----- The buffers -----

  /** What the channel keeps between two calls: the samples held in an input
      buffer with room for `room`, the tail of the last window, and how much of
      the stream was read. */
  datatype Buffered = Buffered(held: seq<Sample>, room: nat, tail: seq<Sample>, first: bool, taken: nat)

  /** The finished hop from a weighted window and the tail of the window before. */
  function Finished(c: Config, first: bool, w: seq<Sample>, tail: seq<Sample>): seq<Sample>
    requires ValidConfig(c) && |tail| == Overlap(c)
  {
    seq(c.hop, j requires 0 <= j < c.hop =>
      c.ops.clamp(Unwindowed(c, first, j,
        if j < Overlap(c) then c.ops.add(c.filter(w, j), tail[j]) else c.filter(w, j))))
  }

  function TailOf(c: Config, w: seq<Sample>): seq<Sample>
    requires ValidConfig(c)
  {
    seq(Overlap(c), j requires j >= 0 => c.filter(w, c.hop + j))
  }

  predicate Ready(c: Config, b: Buffered) {
    ValidConfig(c) && |b.held| >= |c.window| && |b.tail| == Overlap(c)
  }

  /** The buffers after one window, and the hop it yields. */
  function Advanced(c: Config, b: Buffered): Buffered
    requires Ready(c, b)
  {
    b.(held := b.held[c.hop..], tail := TailOf(c, Windowed(c, b.held[..|c.window|])), first := false)
  }

  function Produced(c: Config, b: Buffered): seq<Sample>
    requires Ready(c, b)
  {
    Finished(c, b.first, Windowed(c, b.held[..|c.window|]), b.tail)
  }

  /** The same for `k` windows. */
  function AdvancedBy(c: Config, b: Buffered, k: nat): (r: Buffered)
    requires ValidConfig(c) && |b.tail| == Overlap(c) && |b.held| >= Start(c, k) + Overlap(c)
    ensures |r.tail| == Overlap(c) && |r.held| == |b.held| - Start(c, k)
    ensures r.room == b.room && r.taken == b.taken && (r.first <==> b.first && k == 0)
  {
    if k == 0 then b else Advanced(c, AdvancedBy(c, b, k - 1))
  }

  function ProducedBy(c: Config, b: Buffered, k: nat): seq<Sample>
    requires ValidConfig(c) && |b.tail| == Overlap(c) && |b.held| >= Start(c, k) + Overlap(c)
  {
    if k == 0 then [] else ProducedBy(c, b, k - 1) + Produced(c, AdvancedBy(c, b, k - 1))
  }

  function Slice(c: Config, start: nat, n: nat): seq<Sample> {
    seq(n, i requires i >= 0 => c.ops.clamp(c.stream(start + i)))
  }

  /** After `n` more samples were read. */
  function Fed(c: Config, b: Buffered, n: nat): Buffered {
    b.(held := b.held + Slice(c, b.taken, n), taken := b.taken + n)
  }

  /** After room was made for `n` samples: of what was held, the overlap survives. */
  function Grown(c: Config, b: Buffered, n: nat): Buffered
    requires ValidConfig(c)
  {
    if n <= b.room then b
    else b.(room := n, held := if |b.held| <= Overlap(c) then b.held
                               else b.held[..Overlap(c)] + seq(|b.held| - Overlap(c), i => c.ops.zero))
  }

  /** How many samples a request for `k` hops wants to see in the buffer. */
  function Target(c: Config, first: bool, k: nat): nat
    requires ValidConfig(c)
  {
    if !first then Start(c, k) + Overlap(c)
    else if Start(c, k) > |c.window| then Start(c, k) else |c.window|
  }

  /** How many windows that makes. */
  function Windows(first: bool, k: nat): nat {
    if !first then k else if k < 2 then 1 else k - 1
  }

  predicate Answerable(c: Config, b: Buffered, k: nat) {
    && ValidConfig(c) && |b.tail| == Overlap(c) && k > 0
    && (if b.first then b.held == [] else Overlap(c) <= |b.held| <= Overlap(c) + 1)
  }

  /** The buffers after a request for `k` hops was computed, and what it yields. */
  function Answered(c: Config, b: Buffered, k: nat): Buffered
    requires Answerable(c, b, k)
  {
    TargetFits(c, b.first, k);
    AdvancedBy(c, Filled(c, b, k), Windows(b.first, k))
  }

  function Yield(c: Config, b: Buffered, k: nat): seq<Sample>
    requires Answerable(c, b, k)
  {
    TargetFits(c, b.first, k);
    ProducedBy(c, Filled(c, b, k), Windows(b.first, k))
  }

  /** The buffers filled up to the target. */
  function Filled(c: Config, b: Buffered, k: nat): (r: Buffered)
    requires Answerable(c, b, k)
    ensures |r.held| == Target(c, b.first, k) && r.tail == b.tail && r.first == b.first
  {
    TargetFits(c, b.first, k);
    Fed(c, Grown(c, b, Target(c, b.first, k)), Target(c, b.first, k) - |b.held|)
  }

  /** A target holds more than what is held before, and just the windows counted. */
  lemma TargetFits(c: Config, first: bool, k: nat)
    requires ValidConfig(c) && (first || k > 0)
    ensures Target(c, first, k) >= |c.window| > Overlap(c) + 1
    ensures var w := Windows(first, k);
            w > 0 && Start(c, w) + Overlap(c) <= Target(c, first, k) <= Start(c, w) + Overlap(c) + 1
    ensures first && k >= 2 ==> Target(c, true, k) == Start(c, k) == Start(c, k - 1) + Overlap(c) + 1
  {
  }

  // ----- Positions -----

  lemma {:induction false} StartIs(c: Config, n: nat)
    ensures Start(c, n) == n * c.hop
  {
    if n != 0 {
      StartIs(c, n - 1);
      assert n * c.hop == (n - 1) * c.hop + c.hop;
    }
  }

  lemma {:induction false} StartGrows(c: Config, m: nat, n: nat)
    requires m < n
    ensures Start(c, m) + c.hop <= Start(c, n)
  {
    if m < n - 1 {
      StartGrows(c, m, n - 1);
    }
  }

  /** How many windows fit into `m` hops and less than one more. */
  lemma HopsIn(c: Config, m: nat, r: nat)
    requires r < c.hop
    ensures (Start(c, m) + r) / c.hop == m
  {
    StartIs(c, m);
    DivideExactly(m, c.hop, r);
  }

  lemma DivideExactly(m: nat, hop: nat, r: nat)
    requires r < hop
    ensures (m * hop + r) / hop == m
  {
    var a := m * hop + r;
    OneQuotient(a / hop, a % hop, m, r, hop);
  }

  lemma OneQuotient(q: int, s: nat, m: nat, r: nat, hop: nat)
    requires q * hop + s == m * hop + r && s < hop && r < hop
    ensures q == m
  {
    assert (m - q) * hop == s - r;
    if q != m {
      AtLeastOneHop(m - q, hop);
    }
  }

  lemma AtLeastOneHop(d: int, hop: nat)
    requires d != 0
    ensures d * hop >= hop || d * hop <= 0 - hop
  {
  }

  lemma EnoughLeft(c: Config, i: nat, k: nat)
    requires ValidConfig(c) && i < k
    ensures Start(c, i + 1) == Start(c, i) + c.hop <= Start(c, k)
  {
    StartGrows(c, i, k);
  }

  lemma FedNothing(c: Config, b: Buffered)
    ensures Fed(c, b, 0) == b
  {
  }

  lemma FedTwice(c: Config, b: Buffered, m: nat, n: nat)
    ensures Fed(c, Fed(c, b, m), n) == Fed(c, b, m + n)
  {
  }

  // ----- The buffers against the signal -----

  function WindowAt(c: Config, lost: Option<nat>, n: nat): seq<Sample>
    requires ValidConfig(c)
  {
    Windowed(c, HeardFrom(c, lost, Start(c, n), |c.window|))
  }

  function TailAt(c: Config, lost: Option<nat>, n: nat): seq<Sample>
    requires ValidConfig(c)
  {
    seq(Overlap(c), j requires j >= 0 => Tail(c, lost, n, j))
  }

  lemma FinishedIsBlock(c: Config, lost: Option<nat>, n: nat)
    requires ValidConfig(c)
    ensures Finished(c, n == 0, WindowAt(c, lost, n), TailAt(c, lost, n)) == Block(c, lost, n)
    ensures TailOf(c, WindowAt(c, lost, n)) == TailAt(c, lost, n + 1)
  {
    var w, tail := WindowAt(c, lost, n), TailAt(c, lost, n);
    var f, b := Finished(c, n == 0, w, tail), Block(c, lost, n);
    forall j | 0 <= j < c.hop
      ensures f[j] == b[j]
    {
      assert Filtered(c, lost, n, j) == c.filter(w, j);
      if j < Overlap(c) {
        assert tail[j] == Tail(c, lost, n, j);
      }
    }
  }

  lemma HeardShifts(c: Config, lost: Option<nat>, start: nat, n: nat, k: nat)
    requires k <= n
    ensures HeardFrom(c, lost, start, n)[..k] == HeardFrom(c, lost, start, k)
    ensures HeardFrom(c, lost, start, n)[k..] == HeardFrom(c, lost, start + k, n - k)
  {
  }

  lemma SameBefore(c: Config, at: nat, start: nat, n: nat)
    requires start + n <= at
    ensures HeardFrom(c, Some(at), start, n) == HeardFrom(c, None, start, n)
  {
    var a, b := HeardFrom(c, Some(at), start, n), HeardFrom(c, None, start, n);
    forall i | 0 <= i < |a|
      ensures a[i] == b[i]
    {
      assert a[i] == Heard(c, Some(at), start + i);
      assert b[i] == Heard(c, None, start + i);
    }
  }

  lemma HeardExtends(c: Config, lost: Option<nat>, start: nat, n: nat)
    ensures HeardFrom(c, lost, start, n + 1) == HeardFrom(c, lost, start, n) + [Heard(c, lost, start + n)]
  {
  }

  lemma Silenced(c: Config, start: nat, n: nat)
    ensures HeardFrom(c, None, start, n + 1)[..n] + [c.ops.zero] == HeardFrom(c, Some(start + n), start, n + 1)
  {
    SameBefore(c, start + n, start, n);
    HeardExtends(c, None, start, n);
    HeardExtends(c, Some(start + n), start, n);
  }

  /** Blocks that are done do not depend on what lies behind their last window. */
  lemma WindowUnaffected(c: Config, n: nat, m: nat, at: nat)
    requires ValidConfig(c) && m < n && at >= Start(c, n) + Overlap(c)
    ensures WindowAt(c, Some(at), m) == WindowAt(c, None, m)
  {
    StartGrows(c, m, n);
    SameBefore(c, at, Start(c, m), |c.window|);
  }

  lemma BlockUnaffected(c: Config, n: nat, m: nat, at: nat)
    requires ValidConfig(c) && m < n && at >= Start(c, n) + Overlap(c)
    ensures Block(c, Some(at), m) == Block(c, None, m)
    ensures TailAt(c, Some(at), m + 1) == TailAt(c, None, m + 1)
  {
    WindowUnaffected(c, n, m, at);
    FinishedIsBlock(c, None, m);
    FinishedIsBlock(c, Some(at), m);
    if m > 0 {
      WindowUnaffected(c, n, m - 1, at);
      FinishedIsBlock(c, None, m - 1);
      FinishedIsBlock(c, Some(at), m - 1);
    } else {
      assert TailAt(c, None, 0) == TailAt(c, Some(at), 0);
    }
  }

  lemma {:induction false} DoneUnaffected(c: Config, n: nat, m: nat, at: nat)
    requires ValidConfig(c) && m <= n && at >= Start(c, n) + Overlap(c)
    ensures OverlapAdded(c, Some(at), m) == OverlapAdded(c, None, m)
    ensures m > 0 ==> TailAt(c, Some(at), m) == TailAt(c, None, m)
  {
    if m != 0 {
      DoneUnaffected(c, n, m - 1, at);
      BlockUnaffected(c, n, m - 1, at);
    }
  }

  /** `n` windows are done: the channel holds what comes next in the signal, and
      the tail of the last window. */
  ghost predicate Aligned(c: Config, lost: Option<nat>, n: nat, b: Buffered)
    requires ValidConfig(c)
  {
    && b.taken == Start(c, n) + |b.held|
    && b.held == HeardFrom(c, lost, Start(c, n), |b.held|)
    && b.tail == TailAt(c, lost, n)
    && (b.first <==> n == 0)
  }

  lemma AdvancedKeeps(c: Config, lost: Option<nat>, n: nat, b: Buffered)
    requires Ready(c, b) && Aligned(c, lost, n, b)
    ensures Aligned(c, lost, n + 1, Advanced(c, b))
    ensures Produced(c, b) == Block(c, lost, n)
  {
    HeardShifts(c, lost, Start(c, n), |b.held|, |c.window|);
    HeardShifts(c, lost, Start(c, n), |b.held|, c.hop);
    FinishedIsBlock(c, lost, n);
  }

  lemma {:induction false} AdvancedByAligned(c: Config, lost: Option<nat>, n: nat, b: Buffered, k: nat)
    requires ValidConfig(c) && Aligned(c, lost, n, b) && |b.held| >= Start(c, k) + Overlap(c)
    ensures Aligned(c, lost, n + k, AdvancedBy(c, b, k))
  {
    if k != 0 {
      AdvancedByAligned(c, lost, n, b, k - 1);
      AdvancedKeeps(c, lost, n + k - 1, AdvancedBy(c, b, k - 1));
    }
  }

  lemma ProducedAt(c: Config, lost: Option<nat>, n: nat, b: Buffered, k: nat)
    requires ValidConfig(c) && Aligned(c, lost, n, b) && |b.held| >= Start(c, k + 1) + Overlap(c)
    ensures Produced(c, AdvancedBy(c, b, k)) == Block(c, lost, n + k)
  {
    AdvancedByAligned(c, lost, n, b, k);
    AdvancedKeeps(c, lost, n + k, AdvancedBy(c, b, k));
  }

  lemma {:induction false} ProducedByIs(c: Config, lost: Option<nat>, n: nat, b: Buffered, k: nat)
    requires ValidConfig(c) && Aligned(c, lost, n, b) && |b.held| >= Start(c, k) + Overlap(c)
    ensures OverlapAdded(c, lost, n) + ProducedBy(c, b, k) == OverlapAdded(c, lost, n + k)
  {
    if k == 0 {
      assert OverlapAdded(c, lost, n) + [] == OverlapAdded(c, lost, n);
    } else {
      ProducedByIs(c, lost, n, b, k - 1);
      ProducedAt(c, lost, n, b, k - 1);
      Appended(c, lost, n, b, k - 1);
    }
  }

  lemma Appended(c: Config, lost: Option<nat>, n: nat, b: Buffered, k: nat)
    requires ValidConfig(c) && |b.tail| == Overlap(c) && |b.held| >= Start(c, k + 1) + Overlap(c)
    requires OverlapAdded(c, lost, n) + ProducedBy(c, b, k) == OverlapAdded(c, lost, n + k)
    requires Produced(c, AdvancedBy(c, b, k)) == Block(c, lost, n + k)
    ensures OverlapAdded(c, lost, n) + ProducedBy(c, b, k + 1) == OverlapAdded(c, lost, n + k + 1)
  {
  }

  lemma Regroup(x: seq<Sample>, y: seq<Sample>, z: seq<Sample>)
    ensures x + (y + z) == (x + y) + z
  {
  }

  lemma FedKeeps(c: Config, lost: Option<nat>, n: nat, b: Buffered, more: nat)
    requires ValidConfig(c) && Aligned(c, lost, n, b) && (lost.Some? ==> lost.value < b.taken)
    ensures Aligned(c, lost, n, Fed(c, b, more))
  {
    var start, k := Start(c, n), |b.held|;
    var a, f := HeardFrom(c, lost, start, k + more), b.held + Slice(c, b.taken, more);
    forall i | 0 <= i < k + more
      ensures a[i] == f[i]
    {
      assert a[i] == Heard(c, lost, start + i);
      if i >= k {
        assert f[i] == c.ops.clamp(c.stream(b.taken + (i - k)));
      } else {
        assert f[i] == HeardFrom(c, lost, start, k)[i];
      }
    }
    assert a == f;
  }

  /** Growing the buffer silences the one sample held beyond the overlap, and
      changes nothing that was computed before. */
  lemma LastSilenced(c: Config, n: nat, b: Buffered, room: nat)
    requires ValidConfig(c) && n > 0 && Aligned(c, None, n, b) && |b.held| == Overlap(c) + 1 && room > b.room
    ensures Aligned(c, Some(b.taken - 1), n, Grown(c, b, room))
    ensures OverlapAdded(c, Some(b.taken - 1), n) == OverlapAdded(c, None, n)
  {
    DoneUnaffected(c, n, n, b.taken - 1);
    Silenced(c, Start(c, n), Overlap(c));
    assert seq(1, i => c.ops.zero) == [c.ops.zero];
  }

  // ----- Whole runs -----

  /** The sample that a growing buffer loses: the last one held, when the first
      request took two or more hops and the second at least as many. */
  function LostAt(c: Config, requests: seq<nat>): Option<nat> {
    if |requests| >= 2 && requests[0] >= 2 && requests[1] >= requests[0] && Start(c, requests[0]) > 0
    then Some(Start(c, requests[0]) - 1) else None
  }

  /** What the channel holds follows from the requests: the overlap, and one
      sample more after a first request of two or more hops. */
  predicate Past(c: Config, requests: seq<nat>, b: Buffered)
    requires ValidConfig(c)
  {
    if requests == [] then b.first && b.held == [] && b.room == 0
    else
      && !b.first && b.room >= |c.window|
      && (if |requests| == 1
          then
            && b.room == b.taken == Target(c, true, requests[0])
            && |b.held| == Overlap(c) + (if requests[0] >= 2 then 1 else 0)
          else |b.held| == Overlap(c))
  }

  /** After computing `requests`: what the channel holds, and that all it has
      produced is the whole-signal overlap-add. */
  ghost predicate Sound(c: Config, b: Buffered, out: seq<Sample>, n: nat, requests: seq<nat>) {
    && ValidConfig(c) && Past(c, requests, b)
    && Aligned(c, LostAt(c, requests), n, b)
    && (LostAt(c, requests).Some? ==> LostAt(c, requests).value < b.taken)
    && out == OverlapAdded(c, LostAt(c, requests), n)
  }

  /** Whether the second target outgrows the buffer of the first. */
  lemma SecondTarget(c: Config, k0: nat, k1: nat)
    requires ValidConfig(c) && k0 >= 2
    ensures Start(c, k1) + Overlap(c) > Start(c, k0) <==> k1 >= k0
    ensures Start(c, k0) > 0
  {
  }

  lemma GrownKeeps(c: Config, b: Buffered, out: seq<Sample>, n: nat, requests: seq<nat>, k: nat)
    requires Sound(c, b, out, n, requests) && Answerable(c, b, k)
    ensures var lost := LostAt(c, requests + [k]);
            && Aligned(c, lost, n, Grown(c, b, Target(c, b.first, k)))
            && out == OverlapAdded(c, lost, n) && (lost.Some? ==> lost.value < b.taken)
  {
    if requests != [] {
      TargetFits(c, true, requests[0]);
      if |requests| == 1 && requests[0] >= 2 {
        SecondTarget(c, requests[0], k);
        if k >= requests[0] {
          LastSilenced(c, n, b, Target(c, false, k));
        }
      }
    }
  }

  lemma PastAnswered(c: Config, b: Buffered, requests: seq<nat>, k: nat)
    requires ValidConfig(c) && Past(c, requests, b) && Answerable(c, b, k) && (b.first ==> b.taken == 0)
    ensures Past(c, requests + [k], Answered(c, b, k)) && Answered(c, b, k).taken >= b.taken
  {
  }

  lemma FilledKeeps(c: Config, b: Buffered, out: seq<Sample>, n: nat, requests: seq<nat>, k: nat)
    requires Sound(c, b, out, n, requests) && Answerable(c, b, k)
    ensures var lost := LostAt(c, requests + [k]);
            && Aligned(c, lost, n, Filled(c, b, k))
            && out == OverlapAdded(c, lost, n) && (lost.Some? ==> lost.value < b.taken)
  {
    TargetFits(c, b.first, k);
    GrownKeeps(c, b, out, n, requests, k);
    var target := Target(c, b.first, k);
    FedKeeps(c, LostAt(c, requests + [k]), n, Grown(c, b, target), target - |b.held|);
  }

  /** Computing a request keeps all of it. */
  lemma AnswerKeeps(c: Config, b: Buffered, out: seq<Sample>, n: nat, requests: seq<nat>, k: nat)
    requires Sound(c, b, out, n, requests) && Answerable(c, b, k)
    ensures Sound(c, Answered(c, b, k), out + Yield(c, b, k), n + Windows(b.first, k), requests + [k])
  {
    TargetFits(c, b.first, k);
    FilledKeeps(c, b, out, n, requests, k);
    PastAnswered(c, b, requests, k);
    AdvancedByAligned(c, LostAt(c, requests + [k]), n, Filled(c, b, k), Windows(b.first, k));
    ProducedByIs(c, LostAt(c, requests + [k]), n, Filled(c, b, k), Windows(b.first, k));
  }

  /** The rounding to whole hops, PA_ROUND_UP. */
  function Hops(frames: nat, hop: nat): nat
    requires hop > 0
  {
    (frames + hop - 1) / hop
  }

  /** A channel with its output queue, and the history of a run. */
  datatype Player = Player(b: Buffered, queue: seq<Sample>, handed: seq<Sample>, windows: nat, requests: seq<nat>)

  function Empty(c: Config): Buffered
    requires ValidConfig(c)
  {
    Buffered([], 0, seq(Overlap(c), i => c.ops.zero), true, 0)
  }

  /** What can be handed out: what is queued or, if that is nothing, what is computed. */
  function Available(c: Config, b: Buffered, queue: seq<Sample>, k: nat): seq<Sample>
    requires queue == [] ==> Answerable(c, b, k)
  {
    if queue == [] then Yield(c, b, k) else queue
  }

  /** The length of the first piece of the queue, of any size. */
  function Piece(queue: seq<Sample>, piece: nat): nat {
    if piece < |queue| then piece + 1 else |queue|
  }

  predicate CanPop(c: Config, p: Player, frames: nat) {
    ValidConfig(c) && (p.queue == [] ==> Fits(c) && Answerable(c, p.b, Hops(frames, c.hop)))
  }

  function Popped(c: Config, p: Player, frames: nat, piece: nat): Player
    requires CanPop(c, p, frames)
  {
    var k := Hops(frames, c.hop);
    var queue := Available(c, p.b, p.queue, k);
    var n := Piece(queue, piece);
    if p.queue == [] then
      Player(Answered(c, p.b, k), queue[n..], p.handed + queue[..n],
        p.windows + Windows(p.b.first, k), p.requests + [k])
    else p.(queue := queue[n..], handed := p.handed + queue[..n])
  }

  ghost predicate SoundPlayer(c: Config, p: Player) {
    Sound(c, p.b, p.handed + p.queue, p.windows, p.requests)
  }

  lemma EmptyQueue(x: seq<Sample>)
    ensures x + [] == x
  {
  }

  /** A request passes every assertion exactly when something is queued already or
      a window fits into the transform. */
  lemma CanPopIff(c: Config, p: Player, frames: nat)
    requires SoundPlayer(c, p) && frames > 0
    ensures CanPop(c, p, frames) <==> p.queue != [] || Fits(c)
  {
  }

  /** Handing out a piece of the queue. */
  lemma HandedOut(c: Config, p: Player, queue: seq<Sample>, n: nat)
    requires SoundPlayer(c, p.(queue := queue)) && n <= |queue|
    ensures SoundPlayer(c, p.(queue := queue[n..], handed := p.handed + queue[..n]))
  {
  }

  lemma PoppedKeeps(c: Config, p: Player, frames: nat, piece: nat)
    requires SoundPlayer(c, p) && CanPop(c, p, frames)
    ensures SoundPlayer(c, Popped(c, p, frames, piece))
  {
    var k := Hops(frames, c.hop);
    if p.queue == [] {
      EmptyQueue(p.handed);
      AnswerKeeps(c, p.b, p.handed, p.windows, p.requests, k);
      var queue := Yield(c, p.b, k);
      var q := Player(Answered(c, p.b, k), queue, p.handed, p.windows + Windows(p.b.first, k), p.requests + [k]);
      HandedOut(c, q, queue, Piece(queue, piece));
    } else {
      HandedOut(c, p, p.queue, Piece(p.queue, piece));
    }
  }

  lemma PoppedSomething(c: Config, p: Player, frames: nat, piece: nat)
    requires CanPop(c, p, frames)
    ensures |Popped(c, p, frames, piece).handed| > |p.handed|
  {
  }

  predicate AllPositive(frames: seq<nat>) {
    forall i :: 0 <= i < |frames| ==> frames[i] > 0
  }

  /** The first `n` requests of a run. A request that fails an assertion ends the
      program: nothing is handed out any more. */
  function Run(c: Config, frames: seq<nat>, pieces: nat -> nat, n: nat): Player
    requires ValidConfig(c) && AllPositive(frames) && n <= |frames|
  {
    if n == 0 then Player(Empty(c), [], [], 0, [])
    else
      var p := Run(c, frames, pieces, n - 1);
      if CanPop(c, p, frames[n - 1]) then Popped(c, p, frames[n - 1], pieces(n - 1)) else p
  }

  lemma {:induction false} RunSound(c: Config, frames: seq<nat>, pieces: nat -> nat, n: nat)
    requires ValidConfig(c) && AllPositive(frames) && n <= |frames|
    ensures SoundPlayer(c, Run(c, frames, pieces, n))
  {
    if n == 0 {
      assert HeardFrom(c, None, 0, 0) == [];
      assert seq(Overlap(c), i => c.ops.zero) == TailAt(c, None, 0);
    } else {
      RunSound(c, frames, pieces, n - 1);
      var p := Run(c, frames, pieces, n - 1);
      if CanPop(c, p, frames[n - 1]) {
        PoppedKeeps(c, p, frames[n - 1], pieces(n - 1));
      }
    }
  }

  lemma RunGoesOn(c: Config, frames: seq<nat>, pieces: nat -> nat, n: nat)
    requires ValidConfig(c) && AllPositive(frames) && Fits(c) && n < |frames|
    ensures CanPop(c, Run(c, frames, pieces, n), frames[n])
  {
    RunSound(c, frames, pieces, n);
    CanPopIff(c, Run(c, frames, pieces, n), frames[n]);
  }

  /** Over any run, whatever the request sizes and the sizes in which the output is
      taken: what was handed out, and then what is queued, is the whole-signal
      overlap-add of the clamped input, but for the sample that the requests lost. */
  lemma RunIsOverlapAdd(c: Config, frames: seq<nat>, pieces: nat -> nat)
    requires ValidConfig(c) && AllPositive(frames)
    ensures var p := Run(c, frames, pieces, |frames|);
            p.handed + p.queue == OverlapAdded(c, LostAt(c, p.requests), p.windows)
    ensures var p := Run(c, frames, pieces, |frames|);
            p.requests != [] ==> Overlap(c) <= |p.b.held| <= Overlap(c) + 1
  {
    RunSound(c, frames, pieces, |frames|);
  }

  // ----- The size of the transform -----

  const WINDOW_SIZE: nat := 15999

  function Pow2(e: nat): nat {
    if e == 0 then 1 else 2 * Pow2(e - 1)
  }

  /** The logarithm to base 2, rounded up. */
  function CeilLog2(n: nat): (e: nat)
    requires n > 0
    ensures Pow2(e) >= n && (e > 0 ==> Pow2(e - 1) < n)
  {
    if n == 1 then 0 else 1 + CeilLog2((n + 1) / 2)
  }

  /** The sizes that pa__init chooses for a sample rate. */
  predicate SizedFor(c: Config, rate: nat)
    requires rate > 0
  {
    |c.window| == WINDOW_SIZE && c.hop == (WINDOW_SIZE + 1) / 2 && c.fft == Pow2(CeilLog2(rate))
  }

  lemma {:induction false} Pow2Monotone(d: nat, e: nat)
    requires d <= e
    ensures Pow2(d) <= Pow2(e)
  {
    if d < e {
      Pow2Monotone(d, e - 1);
    }
  }

  lemma Pow2Thirteen()
    ensures Pow2(13) == 8192
  {
    assert Pow2(4) == 16 && Pow2(8) == 16 * Pow2(4) && Pow2(12) == 16 * Pow2(8);
  }

  lemma FitsIff(c: Config, rate: nat)
    requires rate > 0 && SizedFor(c, rate)
    ensures Fits(c) <==> rate > 8192
  {
    var e := CeilLog2(rate);
    Pow2Thirteen();
    if e <= 13 {
      Pow2Monotone(e, 13);
    } else {
      Pow2Monotone(13, e - 1);
    }
  }

  /** Every request of a run passes the assertions exactly for sample rates above
      8192 Hz; for lower ones the first request already fails. */
  lemma AnsweredIff(c: Config, rate: nat, frames: seq<nat>, pieces: nat -> nat)
    requires rate > 0 && SizedFor(c, rate) && AllPositive(frames) && frames != []
    ensures (forall n :: 0 <= n < |frames| ==> CanPop(c, Run(c, frames, pieces, n), frames[n])) <==> rate > 8192
    ensures rate <= 8192 ==> !CanPop(c, Run(c, frames, pieces, 0), frames[0])
  {
    FitsIff(c, rate);
    if rate > 8192 {
      forall n | 0 <= n < |frames|
        ensures CanPop(c, Run(c, frames, pieces, n), frames[n])
      {
        RunGoesOn(c, frames, pieces, n);
      }
    } else {
      assert !CanPop(c, Run(c, frames, pieces, 0), frames[0]);
    }
  }

  /** A sink of 8000 Hz gets a transform of 8192 samples for windows of 15999. */
  lemma LowRateExample(c: Config, frames: nat)
    requires SizedFor(c, 8000) && frames > 0
    ensures c.fft == 8192 && !CanPop(c, Player(Empty(c), [], [], 0, []), frames)
  {
    Pow2Thirteen();
    var e := CeilLog2(8000);
    if e < 13 {
      Pow2Monotone(e, 12);
    } else if e > 13 {
      Pow2Monotone(13, e - 1);
    }
  }

  // ----- When the lost sample can be heard -----

  ghost predicate OutputExact(c: Config, frames: seq<nat>, pieces: nat -> nat)
    requires ValidConfig(c) && AllPositive(frames)
  {
    var p := Run(c, frames, pieces, |frames|);
    p.handed + p.queue == OverlapAdded(c, None, p.windows)
  }

  predicate Silent(c: Config, lost: Option<nat>) {
    lost.None? || c.ops.clamp(c.stream(lost.value)) == c.ops.zero
  }

  lemma HeardAlike(c: Config, lost: Option<nat>, start: nat, n: nat)
    requires Silent(c, lost)
    ensures HeardFrom(c, lost, start, n) == HeardFrom(c, None, start, n)
  {
    var a, b := HeardFrom(c, lost, start, n), HeardFrom(c, None, start, n);
    forall i | 0 <= i < n
      ensures a[i] == b[i]
    {
      assert a[i] == Heard(c, lost, start + i) && b[i] == Heard(c, None, start + i);
    }
  }

  lemma TailAlike(c: Config, lost: Option<nat>, n: nat)
    requires ValidConfig(c) && Silent(c, lost)
    ensures TailAt(c, lost, n) == TailAt(c, None, n)
  {
    if n == 0 {
      assert TailAt(c, lost, 0) == TailAt(c, None, 0);
    } else {
      HeardAlike(c, lost, Start(c, n - 1), |c.window|);
      FinishedIsBlock(c, lost, n - 1);
      FinishedIsBlock(c, None, n - 1);
    }
  }

  lemma BlockAlike(c: Config, lost: Option<nat>, n: nat)
    requires ValidConfig(c) && Silent(c, lost)
    ensures Block(c, lost, n) == Block(c, None, n)
  {
    HeardAlike(c, lost, Start(c, n), |c.window|);
    TailAlike(c, lost, n);
    FinishedIsBlock(c, lost, n);
    FinishedIsBlock(c, None, n);
  }

  lemma {:induction false} SignalAlike(c: Config, lost: Option<nat>, blocks: nat)
    requires ValidConfig(c) && Silent(c, lost)
    ensures OverlapAdded(c, lost, blocks) == OverlapAdded(c, None, blocks)
  {
    if blocks != 0 {
      SignalAlike(c, lost, blocks - 1);
      BlockAlike(c, lost, blocks - 1);
    }
  }

  /** Losing silence changes nothing that is handed out, whatever the filter. */
  lemma ExactWhenSilent(c: Config, frames: seq<nat>, pieces: nat -> nat)
    requires ValidConfig(c) && AllPositive(frames)
    requires Silent(c, LostAt(c, Run(c, frames, pieces, |frames|).requests))
    ensures OutputExact(c, frames, pieces)
  {
    var p := Run(c, frames, pieces, |frames|);
    RunIsOverlapAdd(c, frames, pieces);
    SignalAlike(c, LostAt(c, p.requests), p.windows);
  }

  /** Arithmetic whose clamping keeps zero and what is clamped already. */
  ghost predicate Clamps(ops: Arithmetic) {
    ops.clamp(ops.zero) == ops.zero && forall x :: ops.clamp(ops.clamp(x)) == ops.clamp(x)
  }

  /** A flat window, a gain of one and a filter that changes nothing. */
  ghost predicate PassesThrough(c: Config) {
    && (forall x, y :: c.ops.mul(x, y) == y)
    && (forall w: seq<Sample>, j: nat :: j < |w| ==> c.filter(w, j) == w[j])
  }

  lemma PassedThrough(c: Config, lost: Option<nat>, n: nat)
    requires ValidConfig(c) && Fits(c) && PassesThrough(c)
    ensures Block(c, lost, n)[c.hop - 1] == c.ops.clamp(Heard(c, lost, Start(c, n) + c.hop - 1))
  {
    var s := HeardFrom(c, lost, Start(c, n), |c.window|);
    assert Windowed(c, s)[c.hop - 1] == s[c.hop - 1] == Heard(c, lost, Start(c, n) + (c.hop - 1));
    FinishedIsBlock(c, lost, n);
    assert Finished(c, n == 0, WindowAt(c, lost, n), TailAt(c, lost, n))[c.hop - 1]
        == c.ops.clamp(c.filter(WindowAt(c, lost, n), c.hop - 1));
  }

  /** The window in which the lost sample comes last is always among those done. */
  lemma LostIsDone(c: Config, p: Player)
    requires SoundPlayer(c, p) && LostAt(c, p.requests).Some?
    ensures 0 < p.requests[0] <= p.windows
    ensures LostAt(c, p.requests).value == Start(c, p.requests[0] - 1) + c.hop - 1
  {
    if p.requests[0] > p.windows + 1 {
      StartGrows(c, p.windows + 1, p.requests[0]);
    }
  }

  lemma BlockDiffers(c: Config, n: nat)
    requires ValidConfig(c) && Fits(c) && Clamps(c.ops) && PassesThrough(c)
    requires !Silent(c, Some(Start(c, n) + c.hop - 1))
    ensures Block(c, Some(Start(c, n) + c.hop - 1), n)[c.hop - 1] != Block(c, None, n)[c.hop - 1]
  {
    PassedThrough(c, None, n);
    PassedThrough(c, Some(Start(c, n) + c.hop - 1), n);
  }

  lemma SignalDiffers(c: Config, at: nat, blocks: nat, n: nat)
    requires ValidConfig(c) && Fits(c) && Clamps(c.ops) && PassesThrough(c) && !Silent(c, Some(at))
    requires n < blocks && at == Start(c, n) + c.hop - 1
    ensures OverlapAdded(c, Some(at), blocks) != OverlapAdded(c, None, blocks)
  {
    BlockDiffers(c, n);
    SampleAt(c, None, blocks, n, c.hop - 1);
    SampleAt(c, Some(at), blocks, n, c.hop - 1);
  }

  lemma PlayerDiffers(c: Config, p: Player)
    requires SoundPlayer(c, p) && Fits(c) && Clamps(c.ops) && PassesThrough(c) && !Silent(c, LostAt(c, p.requests))
    ensures p.handed + p.queue != OverlapAdded(c, None, p.windows)
  {
    LostIsDone(c, p);
    SignalDiffers(c, LostAt(c, p.requests).value, p.windows, p.requests[0] - 1);
  }

  lemma LossShows(c: Config, frames: seq<nat>, pieces: nat -> nat)
    requires ValidConfig(c) && AllPositive(frames) && Fits(c) && Clamps(c.ops) && PassesThrough(c)
    requires !Silent(c, LostAt(c, Run(c, frames, pieces, |frames|).requests))
    ensures !OutputExact(c, frames, pieces)
  {
    RunSound(c, frames, pieces, |frames|);
    PlayerDiffers(c, Run(c, frames, pieces, |frames|));
  }

  /** Configurations that differ in window, gain, filter and arithmetic at most, but
      clamp the same input to the same samples. */
  ghost predicate SameInput(c: Config, d: Config) {
    SameShape(c, d) && c.stream == d.stream && c.ops.zero == d.ops.zero && c.ops.clamp == d.ops.clamp
  }

  /** Over the run of `frames`, every equalizer hands out the overlap-add of its
      whole input exactly when no sample was lost or the lost one was silent. */
  lemma ExactIff(d: Config, frames: seq<nat>, pieces: nat -> nat)
    requires ValidConfig(d) && AllPositive(frames) && Fits(d) && Clamps(d.ops)
    ensures (forall c :: SameInput(c, d) ==> OutputExact(c, frames, pieces))
            <==> Silent(d, LostAt(d, Run(d, frames, pieces, |frames|).requests))
  {
    var p := Run(d, frames, pieces, |frames|);
    if Silent(d, LostAt(d, p.requests)) {
      forall c | SameInput(c, d)
        ensures OutputExact(c, frames, pieces)
      {
        SameLoss(c, d, frames, pieces);
        ExactWhenSilent(c, frames, pieces);
      }
    } else {
      var c := d.(ops := d.ops.(mul := (x, y) => y),
        filter := (w: seq<Sample>, j: nat) => if j < |w| then w[j] else Float(0));
      SameLoss(c, d, frames, pieces);
      LossShows(c, frames, pieces);
      assert SameInput(c, d);
    }
  }

  lemma SameLoss(c: Config, d: Config, frames: seq<nat>, pieces: nat -> nat)
    requires ValidConfig(d) && AllPositive(frames) && SameInput(c, d)
    ensures LostAt(c, Run(c, frames, pieces, |frames|).requests) == LostAt(d, Run(d, frames, pieces, |frames|).requests)
  {
    var p := Run(c, frames, pieces, |frames|);
    ChannelsInStep(c, d, frames, pieces, |frames|);
    if p.requests != [] {
      SameStart(c, d, p.requests[0]);
    }
  }

  /** Two requests of two hops each, with the output taken in whole hops: the
      second one makes the buffer grow, and the sample held beyond the overlap is
      heard as silence. */
  lemma BufferGrows(c: Config)
    requires ValidConfig(c) && Fits(c)
    ensures var p := Run(c, [2 * c.hop, 2 * c.hop], i => c.hop, 2);
            p.requests == [2, 2] && LostAt(c, p.requests) == Some(2 * c.hop - 1)
  {
    var frames, pieces := [2 * c.hop, 2 * c.hop], (i: nat) => c.hop;
    DivideExactly(2, c.hop, c.hop - 1);
    assert Hops(2 * c.hop, c.hop) == 2;
    var p := Run(c, frames, pieces, 0);
    assert Answerable(c, p.b, 2);
    OneWindow(c, p.b);
    var q := Run(c, frames, pieces, 1);
    assert q == Popped(c, p, 2 * c.hop, c.hop);
    RunGoesOn(c, frames, pieces, 1);
    assert Start(c, 2) == Start(c, 1) + c.hop && Start(c, 1) == c.hop;
  }

  /** An equalizer that changes nothing, fed with a ramp. */
  function Ramp(hop: nat, window: seq<Sample>): Config {
    Config(hop, window, |window|, Float(1),
      Arithmetic(Float(0), (x: Sample, y: Sample) => Float(x.bits + y.bits),
        (x, y) => y, (x, y) => x, x => x, x => true),
      (w: seq<Sample>, j: nat) => if j < |w| then w[j] else Float(0),
      (i: nat) => Float(i + 1))
  }

  /** Its output differs from that of the whole signal, for every hop. */
  lemma GrowthExample(hop: nat, window: seq<Sample>)
    requires hop >= 2 && |window| == 2 * hop - 1
    ensures !OutputExact(Ramp(hop, window), [2 * hop, 2 * hop], i => hop)
  {
    var c := Ramp(hop, window);
    BufferGrows(c);
    LossShows(c, [2 * hop, 2 * hop], i => hop);
  }

  lemma OneWindow(c: Config, b: Buffered)
    requires b.first && Answerable(c, b, 2)
    ensures |Yield(c, b, 2)| == c.hop
  {
    TargetFits(c, true, 2);
    var f := Filled(c, b, 2);
    assert ProducedBy(c, f, 1) == ProducedBy(c, f, 0) + Produced(c, AdvancedBy(c, f, 0));
  }

  /** The overlap-add sample by sample: position n * hop + j is sample j of block n. */
  lemma {:induction false} SampleAt(c: Config, lost: Option<nat>, blocks: nat, n: nat, j: nat)
    requires ValidConfig(c) && n < blocks && j < c.hop
    ensures |OverlapAdded(c, lost, blocks)| == Start(c, blocks)
    ensures Start(c, n) + j < Start(c, blocks)
    ensures OverlapAdded(c, lost, blocks)[Start(c, n) + j] == Block(c, lost, n)[j]
  {
    if n == blocks - 1 {
      LengthIs(c, lost, n);
    } else {
      SampleAt(c, lost, blocks - 1, n, j);
    }
  }

  lemma {:induction false} LengthIs(c: Config, lost: Option<nat>, blocks: nat)
    requires ValidConfig(c)
    ensures |OverlapAdded(c, lost, blocks)| == Start(c, blocks)
  {
    if blocks != 0 {
      LengthIs(c, lost, blocks - 1);
    }
  }

  // ----- Several channels -----

  predicate SameShape(c: Config, d: Config) {
    c.hop == d.hop && |c.window| == |d.window| && c.fft == d.fft
  }

  /** Equal in everything but the samples. */
  predicate InStep(a: Buffered, b: Buffered) {
    |a.held| == |b.held| && a.room == b.room && |a.tail| == |b.tail| && a.first == b.first && a.taken == b.taken
  }

  predicate PlayersInStep(p: Player, q: Player) {
    && InStep(p.b, q.b) && |p.queue| == |q.queue| && |p.handed| == |q.handed|
    && p.windows == q.windows && p.requests == q.requests
  }

  lemma {:induction false} SameStart(c: Config, d: Config, n: nat)
    requires c.hop == d.hop
    ensures Start(c, n) == Start(d, n)
  {
    if n != 0 {
      SameStart(c, d, n - 1);
    }
  }

  lemma {:induction false} ProducedLength(c: Config, b: Buffered, k: nat)
    requires ValidConfig(c) && |b.tail| == Overlap(c) && |b.held| >= Start(c, k) + Overlap(c)
    ensures |ProducedBy(c, b, k)| == Start(c, k)
  {
    if k != 0 {
      ProducedLength(c, b, k - 1);
    }
  }

  lemma AnsweredInStep(c: Config, d: Config, a: Buffered, b: Buffered, k: nat)
    requires SameShape(c, d) && InStep(a, b) && Answerable(c, a, k)
    ensures Answerable(d, b, k) && InStep(Answered(c, a, k), Answered(d, b, k))
    ensures |Yield(c, a, k)| == |Yield(d, b, k)|
  {
    var w := Windows(a.first, k);
    TargetFits(c, a.first, k);
    TargetFits(d, a.first, k);
    SameStart(c, d, k);
    SameStart(c, d, w);
    ProducedLength(c, Filled(c, a, k), w);
    ProducedLength(d, Filled(d, b, k), w);
  }

  /** The channels of a sink share their counters because they move in step: what
      is held, read, queued and handed out has the same length in all of them, so
      that their samples can be interleaved to frames. */
  lemma {:induction false} ChannelsInStep(c: Config, d: Config, frames: seq<nat>, pieces: nat -> nat, n: nat)
    requires ValidConfig(c) && SameShape(c, d) && AllPositive(frames) && n <= |frames|
    ensures PlayersInStep(Run(c, frames, pieces, n), Run(d, frames, pieces, n))
  {
    if n != 0 {
      ChannelsInStep(c, d, frames, pieces, n - 1);
      PoppedInStep(c, d, Run(c, frames, pieces, n - 1), Run(d, frames, pieces, n - 1), frames[n - 1], pieces(n - 1));
    }
  }

  lemma PoppedInStep(c: Config, d: Config, p: Player, q: Player, frames: nat, piece: nat)
    requires ValidConfig(c) && SameShape(c, d) && PlayersInStep(p, q)
    ensures CanPop(c, p, frames) <==> CanPop(d, q, frames)
    ensures CanPop(c, p, frames) ==> PlayersInStep(Popped(c, p, frames, piece), Popped(d, q, frames, piece))
  {
    var k := Hops(frames, c.hop);
    if p.queue == [] && Answerable(c, p.b, k) {
      AnsweredInStep(c, d, p.b, q.b, k);
    }
  }
}
