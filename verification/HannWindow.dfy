/** The window of module-equalizer-sink.c over the reals, and whether its
    overlapping halves add up to one. `cosine(k)` stands for cos(pi * k / R) where
    R is the hop, half of the window's size plus one. */
module HannWindow {

  /** What is used of the cosine: half a period turns its sign, it is even, and
      within the period it is 1 at 0 only. */
  ghost predicate IsCosine(cosine: int -> real, hop: nat) {
    && cosine(0) == 1.0
    && (forall k :: cosine(k + hop) == -cosine(k))
    && (forall k :: cosine(-k) == cosine(k))
    && (forall k :: 0 < k < 2 * hop ==> cosine(k) < 1.0)
  }

  function Hann(cosine: int -> real, k: int): real {
    0.5 * (1.0 - cosine(k))
  }

  /** hanning_window */
  method HanningWindow(window: array<real>, cosine: int -> real)
    modifies window
    ensures forall i :: 0 <= i < window.Length ==> window[i] == Hann(cosine, i)
  {
    for i := 0 to window.Length
      invariant forall k :: 0 <= k < i ==> window[k] == Hann(cosine, k)
    {
      window[i] := 0.5 * (1.0 - cosine(i));
    }
  }

  /** The weights with which a sample at offset `j` of a hop enters the output: from
      the window that starts there and, if that is long enough, from the one before. */
  function Weight(window: seq<real>, hop: nat, j: nat): real
    requires |window| == 2 * hop - 1 && j < hop
  {
    window[j] + if hop + j < |window| then window[hop + j] else 0.0
  }

  /** The weights add up to one exactly before the last offset of a hop: the window
      before ends one sample too early to make up for the rest there. */
  lemma WeightIsOneIff(cosine: int -> real, window: seq<real>, hop: nat, j: nat)
    requires hop >= 2 && IsCosine(cosine, hop) && |window| == 2 * hop - 1 && j < hop
    requires forall i :: 0 <= i < |window| ==> window[i] == Hann(cosine, i)
    ensures Weight(window, hop, j) == 1.0 <==> j < hop - 1
    ensures Weight(window, hop, hop - 1) == 1.0 - window[1]
  {
    assert cosine(j + hop) == -cosine(j);
    assert cosine(-1 + hop) == -cosine(-1) && cosine(-1) == cosine(1);
    assert cosine(1) < 1.0;
  }

  /** The first sample of the window is zero and no other one is. */
  lemma ZeroIff(cosine: int -> real, hop: nat, i: nat)
    requires hop >= 1 && IsCosine(cosine, hop) && i < 2 * hop
    ensures Hann(cosine, i) == 0.0 <==> i == 0
  {
  }
}
