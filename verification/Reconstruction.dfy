/** What the overlap-add of module-equalizer-sink.c is for: a filter that changes
    nothing gives the input back, because the overlapping halves of the window add
    up. The statements name the window, the gain and the input, not the buffers. */
module Reconstruction {
  import opened Common
  import opened OverlapAdd

  /** A filter that changes nothing. */
  ghost predicate FlatFilter(c: Config) {
    forall w: seq<Sample>, j: nat :: j < |w| ==> c.filter(w, j) == w[j]
  }

  /** The sample `x` times the gain and the window at offset `j`. */
  function Weighted(c: Config, j: nat, x: Sample): Sample
    requires j < |c.window|
  {
    c.ops.mul(c.ops.mul(c.gain, c.window[j]), x)
  }

  /** The front of a window and the back of the one before add up to the sample. */
  predicate Restored(c: Config, j: nat, x: Sample)
    requires ValidConfig(c) && j < Overlap(c)
  {
    c.ops.add(Weighted(c, j, x), Weighted(c, c.hop + j, x)) == x
  }

  /** Each sample is weighted once by the front of a window and once by the back of
      the one before, and the two add up to the sample; the middle of the window,
      which the window before does not reach, leaves the sample as it is. */
  ghost predicate HalvesAddUp(c: Config)
    requires ValidConfig(c)
  {
    && (forall j: nat, x :: j < Overlap(c) ==> Restored(c, j, x))
    && (forall x :: Weighted(c, Overlap(c), x) == x)
  }

  /** Dividing by the window undoes the front half where it is not negligible. */
  ghost predicate FrontUndone(c: Config)
    requires ValidConfig(c)
  {
    forall j: nat, x :: j < Overlap(c) && !c.ops.negligible(c.window[j]) ==>
      c.ops.div(c.ops.add(Weighted(c, j, x), c.ops.zero), c.window[j]) == x
  }

  function Input(c: Config, i: nat): Sample {
    c.ops.clamp(c.stream(i))
  }

  lemma FlatFiltered(c: Config, n: nat, j: nat, i: nat)
    requires ValidConfig(c) && Fits(c) && FlatFilter(c) && j < |c.window| && i == Start(c, n) + j
    ensures Filtered(c, None, n, j) == Weighted(c, j, Input(c, i))
  {
    var s := HeardFrom(c, None, Start(c, n), |c.window|);
    assert s[j] == Heard(c, None, i);
    assert Windowed(c, s)[j] == Weighted(c, j, s[j]);
  }

  /** What the transform of window `n` gets: the weighted samples, and zeros behind them. */
  lemma TransformGets(c: Config, lost: Option<nat>, n: nat, j: nat)
    requires ValidConfig(c) && j < c.fft
    ensures |WindowAt(c, lost, n)| == c.fft
    ensures WindowAt(c, lost, n)[j] ==
              if j < |c.window| then Weighted(c, j, Heard(c, lost, Start(c, n) + j)) else c.ops.zero
  {
  }

  lemma BlockAt(c: Config, n: nat, j: nat)
    requires ValidConfig(c) && j < c.hop
    ensures Block(c, None, n)[j] == c.ops.clamp(Unwindowed(c, n == 0, j,
              if j < Overlap(c) then c.ops.add(Filtered(c, None, n, j), Tail(c, None, n, j))
              else Filtered(c, None, n, j)))
  {
  }

  /** The middle of a window. */
  lemma MiddleSample(c: Config, n: nat)
    requires ValidConfig(c) && Fits(c) && FlatFilter(c) && HalvesAddUp(c)
    ensures Block(c, None, n)[Overlap(c)] == c.ops.clamp(Input(c, Start(c, n) + Overlap(c)))
  {
    BlockAt(c, n, Overlap(c));
    FlatFiltered(c, n, Overlap(c), Start(c, n) + Overlap(c));
  }

  lemma Joined(c: Config, n: nat, j: nat, x: Sample)
    requires ValidConfig(c) && n > 0 && j < Overlap(c) && Restored(c, j, x)
    requires Filtered(c, None, n, j) == Weighted(c, j, x)
    requires Filtered(c, None, n - 1, c.hop + j) == Weighted(c, c.hop + j, x)
    ensures Block(c, None, n)[j] == c.ops.clamp(x)
  {
    BlockAt(c, n, j);
  }

  /** Where two windows overlap. */
  lemma OverlapSample(c: Config, n: nat, j: nat)
    requires ValidConfig(c) && Fits(c) && FlatFilter(c) && HalvesAddUp(c) && n > 0 && j < Overlap(c)
    ensures Block(c, None, n)[j] == c.ops.clamp(Input(c, Start(c, n) + j))
  {
    FlatFiltered(c, n, j, Start(c, n) + j);
    FlatFiltered(c, n - 1, c.hop + j, Start(c, n) + j);
    Joined(c, n, j, Input(c, Start(c, n) + j));
  }

  /** The front of the first window, which no window overlaps. */
  lemma FirstSample(c: Config, j: nat)
    requires ValidConfig(c) && Fits(c) && FlatFilter(c) && FrontUndone(c)
    requires j < Overlap(c) && !c.ops.negligible(c.window[j])
    ensures Block(c, None, 0)[j] == c.ops.clamp(Input(c, j))
  {
    BlockAt(c, 0, j);
    FlatFiltered(c, 0, j, j);
    assert c.ops.div(c.ops.add(Weighted(c, j, Input(c, j)), c.ops.zero), c.window[j]) == Input(c, j);
  }

  lemma BlockSample(c: Config, n: nat, j: nat)
    requires ValidConfig(c) && Fits(c) && FlatFilter(c) && HalvesAddUp(c) && FrontUndone(c) && j < c.hop
    requires n > 0 || j == Overlap(c) || !c.ops.negligible(c.window[j])
    ensures Block(c, None, n)[j] == c.ops.clamp(Input(c, Start(c, n) + j))
  {
    if j == Overlap(c) {
      MiddleSample(c, n);
    } else if n > 0 {
      OverlapSample(c, n, j);
    } else {
      FirstSample(c, j);
    }
  }

  lemma SignalSample(c: Config, blocks: nat, n: nat, j: nat)
    requires ValidConfig(c) && Fits(c) && FlatFilter(c) && HalvesAddUp(c) && FrontUndone(c) && j < c.hop && n < blocks
    requires n > 0 || j == Overlap(c) || !c.ops.negligible(c.window[j])
    ensures Start(c, n) + j < |OverlapAdded(c, None, blocks)|
    ensures OverlapAdded(c, None, blocks)[Start(c, n) + j] == c.ops.clamp(Input(c, Start(c, n) + j))
  {
    SampleAt(c, None, blocks, n, j);
    BlockSample(c, n, j);
  }

  /** In any run in which nothing audible was lost, every sample that was handed out
      or is queued is the sample of the input at its position: `j` places into hop
      `n`. In the first hop this holds where the window is not negligible. */
  lemma GivesBackInput(c: Config, frames: seq<nat>, pieces: nat -> nat, n: nat, j: nat)
    requires ValidConfig(c) && AllPositive(frames) && Fits(c)
    requires FlatFilter(c) && HalvesAddUp(c) && FrontUndone(c)
    requires Silent(c, LostAt(c, Run(c, frames, pieces, |frames|).requests))
    requires n < Run(c, frames, pieces, |frames|).windows && j < c.hop
    requires n > 0 || j == Overlap(c) || !c.ops.negligible(c.window[j])
    ensures var p := Run(c, frames, pieces, |frames|);
            && Start(c, n) + j < |p.handed + p.queue|
            && (p.handed + p.queue)[Start(c, n) + j] == c.ops.clamp(c.ops.clamp(c.stream(Start(c, n) + j)))
  {
    ExactWhenSilent(c, frames, pieces);
    SignalSample(c, Run(c, frames, pieces, |frames|).windows, n, j);
  }

  /** An equalizer to which this applies: its window lets only the back half pass. */
  function BackHalf(hop: nat, stream: nat -> Sample): Config
    requires hop >= 2
  {
    Config(hop, seq(2 * hop - 1, j => Float(if j < hop - 1 then 0 else 1)), 2 * hop, Float(1),
      Arithmetic(Float(0), (x: Sample, y: Sample) => Float(x.bits + y.bits),
        (x: Sample, y: Sample) => if x.bits == 0 then Float(0) else y,
        (x, y) => x, x => x, (x: Sample) => x.bits == 0),
      (w: seq<Sample>, j: nat) => if j < |w| then w[j] else Float(0),
      stream)
  }

  lemma BackHalfQualifies(hop: nat, stream: nat -> Sample)
    requires hop >= 2
    ensures var c := BackHalf(hop, stream);
            ValidConfig(c) && Fits(c) && FlatFilter(c) && HalvesAddUp(c) && FrontUndone(c)
  {
    var c := BackHalf(hop, stream);
    forall j: nat, x | j < Overlap(c)
      ensures Restored(c, j, x)
    {
      assert Weighted(c, j, x) == Float(0) && Weighted(c, c.hop + j, x) == x;
    }
  }
}
