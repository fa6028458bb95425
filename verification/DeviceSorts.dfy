/** The two in-place sorts of module-device-manager.c. */
module DeviceSorts {
  import opened DeviceDatabase

  type s32 = n: int | -0x8000_0000 <= n < 0x8000_0000

  /** A device index with the priority its driver gave it. */
  datatype PrioritisedIndex = PrioritisedIndex(index: nat, priority: s32)

  /** A device key with the rank that REORDER computed for it. */
  datatype RankedDevice = RankedDevice(prio: nat, device: Key)

  ghost predicate Descending(s: seq<PrioritisedIndex>) {
    forall i, j :: 0 <= i < j < |s| ==> s[i].priority >= s[j].priority
  }

  ghost predicate Ascending(s: seq<RankedDevice>) {
    forall i, j :: 0 <= i < j < |s| ==> s[i].prio <= s[j].prio
  }

  ghost function Swapped<T>(s: seq<T>, j: nat, k: nat): (r: seq<T>)
    requires j < |s| && k < |s|
    ensures |r| == |s|
  {
    s[k := s[j]][j := s[k]]
  }

  lemma SwappedPermutes<T>(s: seq<T>, j: nat, k: nat)
    requires j < |s| && k < |s|
    ensures multiset(Swapped(s, j, k)) == multiset(s)
  {
  }

  method Swap<T>(a: array<T>, j: nat, k: nat)
    requires j < a.Length && k < a.Length
    modifies a
    ensures a[..] == Swapped(old(a[..]), j, k)
    ensures multiset(a[..]) == multiset(old(a[..]))
  {
    SwappedPermutes(a[..], j, k);
    a[k], a[j] := a[j], a[k];
    assert a[..] == Swapped(old(a[..]), j, k);
  }

  // ----- The start-up sort -----

  /** The first `j` elements are in descending order and the last of them is
      the least element of all. */
  ghost predicate SortedUpTo(s: seq<PrioritisedIndex>, j: nat)
    requires j <= |s|
  {
    && (forall x, y :: 0 <= x < y < j ==> s[x].priority >= s[y].priority)
    && (j > 0 ==> forall t :: 0 <= t < |s| ==> s[j - 1].priority <= s[t].priority)
  }

  /** What holds inside round `j` before `k` is looked at. Up to `k == j` the
      round inserts `s[j]` into the descending prefix; what it carries past the
      prefix is the least element, so it exchanges nothing afterwards. The
      first round carries the minimum into `s[0]`. */
  ghost predicate InRound(s: seq<PrioritisedIndex>, j: nat, k: nat)
    requires j < |s| && k <= |s|
  {
    && (forall x, y :: 0 <= x < y < j ==> s[x].priority >= s[y].priority)
    && (0 < k <= j ==> s[k - 1].priority >= s[j].priority)
    && (0 < j < k ==> s[j - 1].priority >= s[j].priority)
    && (k < j ==> forall t :: 0 <= t < |s| ==> s[j - 1].priority <= s[t].priority)
    && (0 < j <= k ==> forall t :: 0 <= t < |s| ==> s[j].priority <= s[t].priority)
    && (j == 0 ==> forall t :: 0 <= t < k ==> s[0].priority <= s[t].priority)
  }

  lemma RoundSwaps(s: seq<PrioritisedIndex>, j: nat, k: nat)
    requires j < |s| && k < |s| && InRound(s, j, k)
    requires s[j].priority > s[k].priority
    ensures InRound(Swapped(s, j, k), j, k + 1)
  {
  }

  lemma RoundStays(s: seq<PrioritisedIndex>, j: nat, k: nat)
    requires j < |s| && k < |s| && InRound(s, j, k)
    requires s[j].priority <= s[k].priority
    ensures InRound(s, j, k + 1)
  {
  }

  lemma RoundStarts(s: seq<PrioritisedIndex>, j: nat)
    requires j < |s| && SortedUpTo(s, j)
    ensures InRound(s, j, 0)
  {
  }

  lemma RoundEnds(s: seq<PrioritisedIndex>, j: nat)
    requires j < |s| && InRound(s, j, |s|)
    ensures SortedUpTo(s, j + 1)
  {
  }

  method CompareAndSwap(a: array<PrioritisedIndex>, j: nat, k: nat)
    requires j < a.Length && k < a.Length && InRound(a[..], j, k)
    modifies a
    ensures InRound(a[..], j, k + 1)
    ensures multiset(a[..]) == multiset(old(a[..]))
  {
    if a[j].priority > a[k].priority {
      RoundSwaps(a[..], j, k);
      Swap(a, j, k);
    } else {
      RoundStays(a[..], j, k);
    }
  }

  /** One round of the start-up sort: `a[j]` against every `a[k]`. */
  method StartupRound(a: array<PrioritisedIndex>, j: nat)
    requires j < a.Length
    requires SortedUpTo(a[..], j)
    modifies a
    ensures SortedUpTo(a[..], j + 1)
    ensures multiset(a[..]) == multiset(old(a[..]))
  {
    var k := 0;
    RoundStarts(a[..], j);
    while k < a.Length
      invariant 0 <= k <= a.Length
      invariant InRound(a[..], j, k)
      invariant multiset(a[..]) == multiset(old(a[..]))
    {
      CompareAndSwap(a, j, k);
      k := k + 1;
    }
    RoundEnds(a[..], j);
  }

  /** The start-up sort: every `j` is compared with every `k`, over the whole
      range and in both orders, and the pair is exchanged when the element at
      `j` is the greater one. */
  method StartupSort(a: array<PrioritisedIndex>)
    modifies a
    ensures Descending(a[..])
    ensures multiset(a[..]) == multiset(old(a[..]))
  {
    if a.Length > 1 {
      var j := 0;
      while j < a.Length
        invariant 0 <= j <= a.Length
        invariant SortedUpTo(a[..], j)
        invariant multiset(a[..]) == multiset(old(a[..]))
      {
        StartupRound(a, j);
        j := j + 1;
      }
    }
  }

  // ----- The sort of REORDER -----

  /** The first `i` positions hold the least elements, in order. */
  ghost predicate LeastUpTo(s: seq<RankedDevice>, i: nat) {
    forall x, y :: 0 <= x < i && x < y < |s| ==> s[x].prio <= s[y].prio
  }

  ghost predicate InSelection(s: seq<RankedDevice>, i: nat, j: nat)
    requires i < |s| && j <= |s|
  {
    && LeastUpTo(s, i)
    && forall y :: i <= y < j ==> s[i].prio <= s[y].prio
  }

  lemma SelectionSwaps(s: seq<RankedDevice>, i: nat, j: nat)
    requires i <= j < |s| && InSelection(s, i, j) && s[i].prio > s[j].prio
    ensures InSelection(Swapped(s, i, j), i, j + 1)
  {
  }

  /** The exchange sort of REORDER: position `i` is compared with every
      position from `i` on and ends up holding the least of them. */
  method ExchangeSort(a: array<RankedDevice>)
    modifies a
    ensures Ascending(a[..])
    ensures multiset(a[..]) == multiset(old(a[..]))
  {
    var i := 0;
    while i < a.Length
      invariant 0 <= i <= a.Length
      invariant LeastUpTo(a[..], i)
      invariant multiset(a[..]) == multiset(old(a[..]))
    {
      var j := i;
      while j < a.Length
        invariant i <= j <= a.Length
        invariant InSelection(a[..], i, j)
        invariant multiset(a[..]) == multiset(old(a[..]))
      {
        if a[i].prio > a[j].prio {
          SelectionSwaps(a[..], i, j);
          Swap(a, i, j);
        }
        j := j + 1;
      }
      i := i + 1;
    }
  }
}
