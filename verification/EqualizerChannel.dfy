/** The buffers of module-equalizer-sink.c, updated in place: every method is
    proved against the functions of OverlapAdd. */
module EqualizerChannel {
  import opened Common
  import opened OverlapAdd

  class Channel {
    const c: Config
    var input: array<Sample>
    var overlap: array<Sample>   // overlap_accum
    var work: array<Sample>      // work_buffer
    var gathered: nat          // samples_gathered
    var first: bool            // first_iteration
    var taken: nat             // samples read from the stream so far
    var outputQ: seq<Sample>

    constructor (c: Config)
      requires ValidConfig(c)
      ensures this.c == c && Buffers() && State() == Empty(c) && outputQ == []
      ensures fresh(input) && fresh(overlap) && fresh(work)
    {
      this.c := c;
      input, work := new Sample[0], new Sample[c.fft];
      overlap := new Sample[Overlap(c)](i => c.ops.zero);
      gathered, first, taken, outputQ := 0, true, 0, [];
    }

    ghost predicate Buffers()
      reads this
    {
      && ValidConfig(c)
      && input != overlap && overlap != work && work != input
      && overlap.Length == Overlap(c) && work.Length == c.fft && gathered <= input.Length
    }

    ghost function State(): Buffered
      reads this, input, overlap
      requires Buffers()
    {
      Buffered(input[..gathered], input.Length, overlap[..], first, taken)
    }

    // ----- dsp_logic -----

    /** The first two loops of dsp_logic: weigh the window, pad with zeros. */
    method ApplyWindow()
      requires Buffers() && Fits(c) && gathered >= |c.window|
      modifies work
      ensures work[..] == Windowed(c, input[..|c.window|])
      ensures forall j :: 0 <= j < |c.window| ==> work[j] == c.ops.mul(c.ops.mul(c.gain, c.window[j]), input[j])
      ensures forall j :: |c.window| <= j < c.fft ==> work[j] == c.ops.zero
    {
      ghost var s := input[..|c.window|];
      for j := 0 to |c.window|
        invariant forall i :: 0 <= i < j ==> work[i] == Windowed(c, s)[i]
      {
        assert input[j] == s[j];
        work[j] := c.ops.mul(c.ops.mul(c.gain, c.window[j]), input[j]);
      }
      for j := |c.window| to c.fft
        invariant forall i :: 0 <= i < j ==> work[i] == Windowed(c, s)[i]
      {
        work[j] := c.ops.zero;
      }
    }

    /** The two transforms with the multiplication between them. */
    method ApplyFilter()
      requires Buffers()
      modifies work
      ensures forall j :: 0 <= j < c.fft ==> work[j] == c.filter(old(work[..]), j)
    {
      var padded := work[..];
      for j := 0 to c.fft
        invariant forall i :: 0 <= i < j ==> work[i] == c.filter(padded, i)
      {
        work[j] := c.filter(padded, j);
      }
    }

    /** The overlap-add part of dsp_logic: add the previous tail, keep the new one. */
    method AddOverlap()
      requires Buffers() && Fits(c)
      modifies work, overlap
      ensures forall j :: 0 <= j < Overlap(c) ==> work[j] == c.ops.add(old(work[j]), old(overlap[j]))
      ensures forall j :: Overlap(c) <= j < c.fft ==> work[j] == old(work[j])
      ensures forall j :: 0 <= j < Overlap(c) ==> overlap[j] == old(work[c.hop + j])
    {
      for j := 0 to Overlap(c)
        invariant forall i :: 0 <= i < j ==> work[i] == c.ops.add(old(work[i]), old(overlap[i]))
        invariant forall i :: j <= i < c.fft ==> work[i] == old(work[i])
        invariant forall i :: 0 <= i < j ==> overlap[i] == old(work[c.hop + i])
        invariant forall i :: j <= i < Overlap(c) ==> overlap[i] == old(overlap[i])
      {
        work[j] := c.ops.add(work[j], overlap[j]);
        overlap[j] := work[c.hop + j];
      }
    }

    /** The memmove at the end of dsp_logic. */
    method Shift()
      requires Buffers() && gathered >= c.hop
      modifies input
      ensures input[..gathered - c.hop] == old(input[c.hop..gathered])
    {
      for j := 0 to gathered - c.hop
        invariant forall i :: 0 <= i < j ==> input[i] == old(input[c.hop + i])
        invariant forall i :: j <= i < input.Length ==> input[i] == old(input[i])
      {
        input[j] := input[c.hop + j];
      }
    }

    /** dsp_logic: one window, leaving one finished hop in the work buffer. */
    method DspLogic()
      requires Buffers() && Fits(c) && gathered >= |c.window|
      modifies work, overlap, input
      ensures var w := Windowed(c, old(input[..|c.window|]));
              && (forall j :: 0 <= j < Overlap(c) ==> work[j] == c.ops.add(c.filter(w, j), old(overlap[j])))
              && (forall j :: Overlap(c) <= j < c.hop ==> work[j] == c.filter(w, j))
              && (forall j :: 0 <= j < Overlap(c) ==> overlap[j] == c.filter(w, c.hop + j))
      ensures input[..gathered - c.hop] == old(input[c.hop..gathered])
    {
      ApplyWindow();
      ApplyFilter();
      AddOverlap();
      Shift();
    }

    // ----- process_samples -----

    /** Undo the window of the first block, and clamp. */
    method Finish() returns (out: seq<Sample>)
      requires Buffers() && Fits(c)
      modifies work
      ensures |out| == c.hop
      ensures forall j :: 0 <= j < c.hop ==> out[j] == c.ops.clamp(Unwindowed(c, first, j, old(work[j])))
    {
      if first {
        for j := 0 to Overlap(c)
          invariant forall i :: 0 <= i < j ==> work[i] == Unwindowed(c, true, i, old(work[i]))
          invariant forall i :: j <= i < c.fft ==> work[i] == old(work[i])
        {
          work[j] := if c.ops.negligible(c.window[j]) then work[j] else c.ops.div(work[j], c.window[j]);
        }
      }
      out := [];
      for j := 0 to c.hop
        invariant |out| == j
        invariant forall i :: 0 <= i < j ==> out[i] == c.ops.clamp(work[i])
      {
        out := out + [c.ops.clamp(work[j])];
      }
    }

    method FilterBlock() returns (out: seq<Sample>)
      requires Buffers() && Fits(c) && gathered >= |c.window|
      modifies work, overlap, input
      ensures var w := Windowed(c, old(input[..|c.window|]));
              out == Finished(c, first, w, old(overlap[..])) && overlap[..] == TailOf(c, w)
      ensures input[..gathered - c.hop] == old(input[c.hop..gathered])
    {
      DspLogic();
      out := Finish();
    }

    /** One round of the loop in process_samples. */
    method ProcessBlock() returns (out: seq<Sample>)
      requires Buffers() && Fits(c) && gathered >= |c.window|
      modifies this`gathered, this`first, input, overlap, work
      ensures Buffers() && State() == Advanced(c, old(State()))
      ensures out == Produced(c, old(State()))
    {
      ghost var held := input[..gathered];
      assert held[..|c.window|] == input[..|c.window|] && held[c.hop..] == input[c.hop..gathered];
      out := FilterBlock();
      gathered := gathered - c.hop;
      first := false;
    }

    /** The loop body again, counted from where the loop started. */
    method NextBlock(ghost before: Buffered, ghost queued: seq<Sample>, ghost i: nat)
      requires Buffers() && Fits(c) && |before.tail| == Overlap(c) && |before.held| >= Start(c, i + 1) + Overlap(c)
      requires State() == AdvancedBy(c, before, i) && outputQ == queued + ProducedBy(c, before, i)
      modifies this`gathered, this`first, this`outputQ, input, overlap, work
      ensures Buffers() && State() == AdvancedBy(c, before, i + 1)
      ensures outputQ == queued + ProducedBy(c, before, i + 1)
    {
      var out := ProcessBlock();
      Regroup(queued, ProducedBy(c, before, i), out);
      outputQ := outputQ + out;
    }

    /** process_samples, when there is enough for `k` windows but not for one more. */
    method ProcessSamples(ghost k: nat)
      requires Buffers() && Fits(c) && Start(c, k) + Overlap(c) <= gathered < Start(c, k + 1) + Overlap(c)
      modifies this`gathered, this`first, this`outputQ, input, overlap, work
      ensures Buffers() && State() == AdvancedBy(c, old(State()), k)
      ensures outputQ == old(outputQ) + ProducedBy(c, old(State()), k)
    {
      HopsIn(c, k, gathered - Overlap(c) - Start(c, k));
      var iterations := (gathered - Overlap(c)) / c.hop;
      ghost var before := State();
      for i := 0 to iterations
        invariant Buffers() && |before.held| >= Start(c, i) + Overlap(c) && State() == AdvancedBy(c, before, i)
        invariant outputQ == old(outputQ) + ProducedBy(c, before, i)
      {
        EnoughLeft(c, i, k);
        NextBlock(before, old(outputQ), i);
      }
    }

    // ----- sink_input_pop_cb -----

    /** input_buffer: take the next `n` samples of the stream, clamped. */
    method InputBuffer(n: nat)
      requires Buffers() && gathered + n <= input.Length
      modifies this`gathered, this`taken, input
      ensures Buffers() && State() == Fed(c, old(State()), n) && gathered == old(gathered) + n
    {
      for i := 0 to n
        modifies input
        invariant forall j :: 0 <= j < gathered ==> input[j] == old(input[j])
        invariant forall j :: gathered <= j < gathered + i ==> input[j] == c.ops.clamp(c.stream(taken + j - gathered))
      {
        input[gathered + i] := c.ops.clamp(c.stream(taken + i));
      }
      gathered := gathered + n;
      taken := taken + n;
      ghost var now, was := input[..gathered], old(input[..gathered]) + Slice(c, old(taken), n);
      forall j | 0 <= j < gathered
        ensures now[j] == was[j]
      {
        if j >= old(gathered) {
          assert was[j] == c.ops.clamp(c.stream(old(taken) + (j - old(gathered))));
        }
      }
      assert now == was;
    }

    /** The loop that collects input; `sizes` says how much the input queue has to
        offer in each round. */
    method Gather(target: nat, sizes: nat -> nat)
      requires Buffers() && gathered < target <= input.Length
      modifies this`gathered, this`taken, input
      ensures Buffers() && State() == Fed(c, old(State()), target - old(gathered))
    {
      var round := 0;
      ghost var before := State();
      FedNothing(c, before);
      while gathered < target
        invariant Buffers() && old(gathered) <= gathered <= target <= input.Length
        invariant State() == Fed(c, before, gathered - old(gathered))
        decreases target - gathered
      {
        var remaining := target - gathered;
        var offered := 1 + sizes(round);
        var n := if remaining < offered then remaining else offered;
        FedTwice(c, before, gathered - old(gathered), n);
        InputBuffer(n);
        round := round + 1;
      }
    }

    /** alloc_input_buffers: of what is held, only the overlap survives a growth. */
    method AllocInputBuffers(n: nat)
      requires Buffers() && (if first then gathered == 0 else gathered >= Overlap(c))
      requires n > input.Length ==> n >= |c.window|
      modifies this`input
      ensures Buffers() && State() == Grown(c, old(State()), n)
      ensures input == old(input) || fresh(input)
    {
      if n <= input.Length {
        return;
      }
      var bigger := new Sample[n](i => c.ops.zero);
      if !first {
        for i := 0 to Overlap(c)
          modifies bigger
          invariant forall j :: 0 <= j < i ==> bigger[j] == input[j]
          invariant forall j :: i <= j < n ==> bigger[j] == c.ops.zero
        {
          bigger[i] := input[i];
        }
      }
      input := bigger;
    }

    /** The size the input buffer is to be filled to for a request of `k` hops. */
    method ChooseTarget(k: nat) returns (target: nat)
      requires ValidConfig(c)
      ensures target == Target(c, first, k)
    {
      StartIs(c, k);
      target := k * c.hop;
      if first {
        target := if target > |c.window| then target else |c.window|;
      } else {
        target := target + Overlap(c);
      }
    }

    /** The first part of a computed request: make room, and fill up to the target. */
    method FillUp(k: nat, sizes: nat -> nat)
      requires Buffers() && Answerable(c, State(), k)
      modifies this`input, this`gathered, this`taken, input
      ensures Buffers() && State() == Filled(c, old(State()), k)
      ensures input == old(input) || fresh(input)
    {
      var target := ChooseTarget(k);
      TargetFits(c, first, k);
      AllocInputBuffers(target);
      Gather(target, sizes);
    }

    /** The part of sink_input_pop_cb that computes a request of `k` hops. It fails
        when the samples are gathered but a window does not fit into the transform. */
    method Compute(k: nat, sizes: nat -> nat) returns (ok: bool)
      requires Buffers() && Answerable(c, State(), k)
      modifies this`input, this`gathered, this`taken, this`first, this`outputQ, input, overlap, work
      ensures Buffers() && (ok <==> Fits(c))
      ensures State() == if ok then Answered(c, old(State()), k) else Filled(c, old(State()), k)
      ensures outputQ == old(outputQ) + if ok then Yield(c, old(State()), k) else []
      ensures input == old(input) || fresh(input)
    {
      TargetFits(c, first, k);
      FillUp(k, sizes);
      ok := c.fft >= |c.window| && c.hop < |c.window|;
      if ok {
        ProcessSamples(Windows(first, k));
      }
    }

    /** sink_input_pop_cb: hand out the next piece, computing more when nothing is
        queued. Nothing is returned when an assertion fails. */
    method Pop(frames: nat, sizes: nat -> nat, piece: nat) returns (chunk: Option<seq<Sample>>)
      requires Buffers() && (outputQ == [] ==> Answerable(c, State(), Hops(frames, c.hop)))
      modifies this`input, this`gathered, this`taken, this`first, this`outputQ, input, overlap, work
      ensures Buffers() && (chunk.Some? <==> old(outputQ) != [] || Fits(c))
      ensures chunk.Some? ==>
        State() == if old(outputQ) == [] then Answered(c, old(State()), Hops(frames, c.hop)) else old(State())
      ensures chunk.Some? ==>
        var queue := Available(c, old(State()), old(outputQ), Hops(frames, c.hop));
        chunk.value == queue[..Piece(queue, piece)] && outputQ == queue[Piece(queue, piece)..]
      ensures input == old(input) || fresh(input)
    {
      if outputQ == [] {
        var ok := Compute((frames + c.hop - 1) / c.hop, sizes);
        if !ok {
          return None;
        }
      }
      var taken := Take(piece);
      chunk := Some(taken);
    }

    method Take(piece: nat) returns (chunk: seq<Sample>)
      modifies this`outputQ
      ensures chunk == old(outputQ)[..Piece(old(outputQ), piece)]
      ensures outputQ == old(outputQ)[Piece(old(outputQ), piece)..]
    {
      var n := Piece(outputQ, piece);
      chunk := outputQ[..n];
      outputQ := outputQ[n..];
    }
  }
}
