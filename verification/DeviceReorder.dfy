/** What REORDER achieves, exactly when it keeps the priorities distinct, and
    what every run of commands keeps. */
module DeviceReorder {
  import opened Common
  import opened Tagstruct
  import opened DeviceEntry
  import opened DeviceDatabase

  /** The devices of the kind under reordering. */
  ghost function KindDevices(es: Entries, names: seq<Key>): set<Key>
    requires names != []
  {
    Devices(es, ReorderKind(names))
  }

  /** No unnamed device has an old priority so large that moving it behind the
      request overflows 32 bits. */
  ghost predicate NoWrap(es: Entries, role: nat, names: seq<Key>)
    requires role < NUM_ROLES && names != []
  {
    forall k :: k in KindDevices(es, names) && k !in names ==> |Dedup(names)| + Prio(es, k, role) < TWO_TO_THE_32
  }

  /** In a sound database an acceptable request names devices of one kind, so
      that REORDER renumbers the whole kind, or the request alone. */
  lemma MergedIsKind(es: Entries, names: seq<Key>)
    requires Sound(es) && Acceptable(es, names)
    ensures forall n :: n in names ==> n in KindDevices(es, names)
    ensures |Dedup(names)| < MAX_NAMED ==> Merged(es, names) == KindDevices(es, names)
    ensures |Dedup(names)| >= MAX_NAMED ==> Merged(es, names) == set n | n in names
  {
  }

  lemma IndexOfAt(s: seq<Key>, i: nat)
    requires NoDuplicates(s) && i < |s|
    ensures IndexOf(s, s[i]) == i
  {
  }

  /** The elements of `d` have the keys 0, 1, 2, ... and all others greater ones. */
  ghost predicate Keyed(order: seq<Key>, keys: seq<nat>, d: seq<Key>) {
    && |keys| == |order|
    && (forall x, y :: 0 <= x < y < |keys| ==> keys[x] <= keys[y])
    && forall p :: 0 <= p < |order| ==>
         if order[p] in d then keys[p] < |d| && d[keys[p]] == order[p] else keys[p] >= |d|
  }

  /** A list without duplicates that is sorted by such keys starts with `d`. */
  lemma {:induction false} SortedPrefix(order: seq<Key>, keys: seq<nat>, d: seq<Key>, i: nat)
    requires NoDuplicates(order) && NoDuplicates(d) && Keyed(order, keys, d) && i <= |d|
    requires forall x :: x in d ==> x in order
    ensures i <= |order| && forall q :: 0 <= q < i ==> order[q] == d[q]
  {
    if i > 0 {
      SortedPrefix(order, keys, d, i - 1);
      NextInPlace(order, keys, d, i - 1);
    }
  }

  lemma NextInPlace(order: seq<Key>, keys: seq<nat>, d: seq<Key>, i: nat)
    requires NoDuplicates(order) && NoDuplicates(d) && Keyed(order, keys, d) && i < |d| && i <= |order|
    requires d[i] in order && forall q :: 0 <= q < i ==> order[q] == d[q]
    ensures i < |order| && order[i] == d[i]
  {
  }

  lemma SortKeyBounds(es: Entries, role: nat, names: seq<Key>, k: Key)
    requires Sound(es) && role < NUM_ROLES && Acceptable(es, names) && NoWrap(es, role, names)
    requires k in Merged(es, names)
    ensures var key := SortKey(es, role, Dedup(names), k);
            if k in Dedup(names) then key < |Dedup(names)| && Dedup(names)[key] == k
            else key == |Dedup(names)| + Prio(es, k, role)
  {
    MergedIsKind(es, names);
  }

  /** The sorted list starts with the request. */
  lemma NamedFirst(es: Entries, role: nat, names: seq<Key>, order: seq<Key>)
    requires Sound(es) && role < NUM_ROLES && Acceptable(es, names) && NoWrap(es, role, names)
    requires SortedFor(es, role, names, order)
    ensures |Dedup(names)| <= |order| && order[..|Dedup(names)|] == Dedup(names)
  {
    var d := Dedup(names);
    var keys := seq(|order|, (p: int) requires 0 <= p < |order| => SortKey(es, role, d, order[p]));
    forall p | 0 <= p < |order|
      ensures if order[p] in d then keys[p] < |d| && d[keys[p]] == order[p] else keys[p] >= |d|
    {
      assert order[p] in order;
      SortKeyBounds(es, role, names, order[p]);
    }
    forall x | x in d
      ensures x in order
    {
      assert x in Merged(es, names);
    }
    SortedPrefix(order, keys, d, |d|);
  }

  /** Where the devices of the list end up. */
  lemma RenumberedPrio(es: Entries, after: Entries, role: nat, order: seq<Key>)
    requires role < NUM_ROLES && Renumbered(es, after, role, order)
    requires |order| < TWO_TO_THE_32
    ensures forall i :: 0 <= i < |order| ==> Prio(after, order[i], role) == i + 1
  {
  }

  lemma EnumerationSize(order: seq<Key>, s: set<Key>)
    requires NoDuplicates(order) && forall k :: k in order <==> k in s
    ensures |order| == |s|
  {
    NoDuplicatesSize(order);
    assert s == set k | k in order;
  }

  lemma OrderSize(es: Entries, role: nat, names: seq<Key>, order: seq<Key>)
    requires Sound(es) && role < NUM_ROLES && Acceptable(es, names) && SortedFor(es, role, names, order)
    ensures |order| == |Merged(es, names)| <= |es|
  {
    EnumerationSize(order, Merged(es, names));
    assert forall n :: n in names ==> n in es;
    SubsetSize(Merged(es, names), es.Keys);
  }

  lemma OrderCoversKind(es: Entries, role: nat, names: seq<Key>, order: seq<Key>)
    requires Sound(es) && role < NUM_ROLES && Acceptable(es, names) && SortedFor(es, role, names, order)
    requires |Dedup(names)| < MAX_NAMED
    ensures forall k :: k in KindDevices(es, names) <==> k in order
    ensures |order| == |KindDevices(es, names)| <= |es|
  {
    MergedIsKind(es, names);
    OrderSize(es, role, names, order);
  }

  /** The place of a device in the sorted list. */
  ghost function Place(order: seq<Key>, k: Key): (i: nat)
    requires k in order
    ensures i < |order| && order[i] == k
  {
    var i :| 0 <= i < |order| && order[i] == k;
    i
  }

  lemma PlacesOfNamed(after: Entries, role: nat, d: seq<Key>, order: seq<Key>)
    requires role < NUM_ROLES && NoDuplicates(order)
    requires |d| <= |order| && order[..|d|] == d
    requires forall i :: 0 <= i < |order| ==> Prio(after, order[i], role) == i + 1
    ensures forall i :: 0 <= i < |d| ==> Prio(after, d[i], role) == i + 1
    ensures forall k :: k in order && k !in d ==> Prio(after, k, role) > |d|
  {
  }

  /** The priorities of the devices are a permutation of 1..n. */
  ghost predicate IsPermutation(es: Entries, role: nat, devices: set<Key>)
    requires role < NUM_ROLES
  {
    && (forall k :: k in devices ==> 1 <= Prio(es, k, role) <= |devices|)
    && forall a, b :: a in devices && b in devices && a != b ==> Prio(es, a, role) != Prio(es, b, role)
  }

  /** The devices of `d` have the priorities 1, 2, 3, ... and the others greater ones. */
  ghost predicate LedBy(es: Entries, role: nat, devices: set<Key>, d: seq<Key>)
    requires role < NUM_ROLES
  {
    && (forall i :: 0 <= i < |d| ==> Prio(es, d[i], role) == i + 1)
    && forall k :: k in devices && k !in d ==> Prio(es, k, role) > |d|
  }

  ghost predicate OrderKept(before: Entries, after: Entries, role: nat, devices: set<Key>)
    requires role < NUM_ROLES
  {
    forall a, b :: a in devices && b in devices ==>
      (Prio(before, a, role) < Prio(before, b, role) ==> Prio(after, a, role) < Prio(after, b, role))
  }

  lemma OrderIsPermutation(es: Entries, role: nat, devices: set<Key>, order: seq<Key>)
    requires role < NUM_ROLES && |order| == |devices|
    requires forall k :: k in devices <==> k in order
    requires forall i :: 0 <= i < |order| ==> Prio(es, order[i], role) == i + 1
    ensures IsPermutation(es, role, devices)
  {
  }

  lemma OrderIsKept(es: Entries, role: nat, names: seq<Key>, after: Entries, order: seq<Key>)
    requires Sound(es) && role < NUM_ROLES && Acceptable(es, names) && NoWrap(es, role, names)
    requires SortedFor(es, role, names, order)
    requires forall i :: 0 <= i < |order| ==> Prio(after, order[i], role) == i + 1
    requires forall k :: k in KindDevices(es, names) <==> k in order
    ensures OrderKept(es, after, role, KindDevices(es, names) - (set n | n in names))
  {
  }

  /** The whole effect of REORDER on the role, for fewer than 256 named
      devices: the priorities of the kind become a permutation of 1..n, the
      named devices come first in the order of their first mention, and the
      others follow in their old order. */
  lemma ReorderOutcome(es: Entries, role: nat, names: seq<Key>, after: Entries)
    requires Sound(es) && role < NUM_ROLES && Acceptable(es, names) && NoWrap(es, role, names)
    requires |Dedup(names)| < MAX_NAMED && |es| < TWO_TO_THE_32
    requires Reordered(es, role, names, after)
    ensures IsPermutation(after, role, KindDevices(es, names))
    ensures LedBy(after, role, KindDevices(es, names), Dedup(names))
    ensures OrderKept(es, after, role, KindDevices(es, names) - (set n | n in names))
  {
    var order :| SortedFor(es, role, names, order) && Renumbered(es, after, role, order);
    OrderCoversKind(es, role, names, order);
    RenumberedPrio(es, after, role, order);
    OrderIsPermutation(after, role, KindDevices(es, names), order);
    NamedFirst(es, role, names, order);
    PlacesOfNamed(after, role, Dedup(names), order);
    OrderIsKept(es, role, names, after, order);
  }

  // ----- Exactly when REORDER puts the request first -----

  /** The two parts of the outcome that depend on the order of the list. */
  ghost predicate RequestFirst(es: Entries, role: nat, names: seq<Key>, after: Entries)
    requires role < NUM_ROLES && names != []
  {
    && LedBy(after, role, KindDevices(es, names), Dedup(names))
    && OrderKept(es, after, role, KindDevices(es, names) - (set n | n in names))
  }

  lemma {:induction false} Least(s: set<Key>, rank: Key -> int) returns (x: Key)
    requires s != {}
    ensures x in s && forall k :: k in s ==> rank(x) <= rank(k)
  {
    var first :| first in s;
    var others := s - {first};
    x := first;
    if others != {} {
      var y := Least(others, rank);
      x := if rank(y) < rank(first) then y else first;
    }
    forall k | k in s
      ensures rank(x) <= rank(k)
    {
      assert k == first || k in others;
    }
  }

  /** Every set of devices can be listed in the order of a rank. */
  lemma {:induction false} SortedBy(s: set<Key>, rank: Key -> int) returns (order: seq<Key>)
    ensures NoDuplicates(order) && forall k :: k in order <==> k in s
    ensures forall i, j :: 0 <= i < j < |order| ==> rank(order[i]) <= rank(order[j])
  {
    if s == {} {
      order := [];
    } else {
      var x := Least(s, rank);
      var rest := SortedBy(s - {x}, rank);
      order := [x] + rest;
      assert forall k :: k in order <==> k == x || k in rest;
      assert forall i :: 1 <= i < |order| ==> order[i] == rest[i - 1] && order[i] in rest;
    }
  }

  /** Of two devices of the same key, either may come first in a sorted list. */
  lemma SortedWithFirst(s: set<Key>, key: Key -> nat, u: Key, v: Key) returns (order: seq<Key>, i: nat, j: nat)
    requires u in s && v in s && u != v && key(u) == key(v)
    ensures NoDuplicates(order) && forall k :: k in order <==> k in s
    ensures forall x, y :: 0 <= x < y < |order| ==> key(order[x]) <= key(order[y])
    ensures i < j < |order| && order[i] == u && order[j] == v
  {
    var rank := (k: Key) => 2 * key(k) + (if k == u then 0 else 1);
    order := SortedBy(s, rank);
    i, j := Place(order, u), Place(order, v);
    assert rank(order[i]) < rank(order[j]);
    forall x, y | 0 <= x < y < |order|
      ensures key(order[x]) <= key(order[y])
    {
      assert rank(order[x]) <= rank(order[y]);
    }
  }

  lemma WrappedKey(es: Entries, role: nat, d: seq<Key>, u: Key)
    requires role < NUM_ROLES && u !in d && |d| < MAX_NAMED && |d| + Prio(es, u, role) >= TWO_TO_THE_32
    ensures SortKey(es, role, d, u) < |d|
  {
  }

  /** A device whose moved priority wraps around has the number of a named one,
      and may then precede it. */
  lemma WrappedComesFirst(es: Entries, role: nat, names: seq<Key>, u: Key) returns (order: seq<Key>, i: nat, j: nat)
    requires Sound(es) && role < NUM_ROLES && Acceptable(es, names) && |Dedup(names)| < MAX_NAMED
    requires u in KindDevices(es, names) && u !in names && |Dedup(names)| + Prio(es, u, role) >= TWO_TO_THE_32
    ensures SortedFor(es, role, names, order)
    ensures i < j < |order| && order[i] == u && order[j] in Dedup(names)
  {
    var d := Dedup(names);
    WrappedKey(es, role, d, u);
    var v := d[SortKey(es, role, d, u)];
    IndexOfAt(d, SortKey(es, role, d, u));
    MergedIsKind(es, names);
    var key := (k: Key) => SortKey(es, role, d, k);
    assert v in d && key(u) == key(v);
    order, i, j := SortedWithFirst(Merged(es, names), key, u, v);
    assert forall x, y :: 0 <= x < y < |order| ==> key(order[x]) <= key(order[y]);
  }

  lemma WrapBreaksOrder(es: Entries, role: nat, names: seq<Key>) returns (after: Entries)
    requires Sound(es) && role < NUM_ROLES && Acceptable(es, names)
    requires |Dedup(names)| < MAX_NAMED && |es| < TWO_TO_THE_32 && !NoWrap(es, role, names)
    ensures Reordered(es, role, names, after) && !RequestFirst(es, role, names, after)
  {
    var u :| u in KindDevices(es, names) && u !in names && |Dedup(names)| + Prio(es, u, role) >= TWO_TO_THE_32;
    var order, i, j := WrappedComesFirst(es, role, names, u);
    OrderCoversKind(es, role, names, order);
    RenumberIsRenumbered(es, role, order);
    after := Renumber(es, role, order);
    RenumberedPrio(es, after, role, order);
    assert Prio(after, u, role) == i + 1 < j + 1 == Prio(after, order[j], role);
    assert order[j] == Dedup(names)[IndexOf(Dedup(names), order[j])];
  }

  /** REORDER puts the request first and keeps the order of the others, whatever
      the order of the hash map, if and only if no unnamed priority is so large
      that moving it behind the request wraps around. */
  lemma RequestFirstIff(es: Entries, role: nat, names: seq<Key>)
    requires Sound(es) && role < NUM_ROLES && Acceptable(es, names)
    requires |Dedup(names)| < MAX_NAMED && |es| < TWO_TO_THE_32
    ensures (forall after :: Reordered(es, role, names, after) ==> RequestFirst(es, role, names, after))
            <==> NoWrap(es, role, names)
  {
    if NoWrap(es, role, names) {
      forall after | Reordered(es, role, names, after)
        ensures RequestFirst(es, role, names, after)
      {
        ReorderOutcome(es, role, names, after);
      }
    } else {
      var after := WrapBreaksOrder(es, role, names);
    }
  }

  /** The bound that every run keeps excludes the wrap-around. */
  lemma BoundedNeverWraps(es: Entries, role: nat, names: seq<Key>, n: nat)
    requires role < NUM_ROLES && names != [] && |Dedup(names)| < MAX_NAMED
    requires BoundedBy(es, n) && n + MAX_NAMED <= TWO_TO_THE_32
    ensures NoWrap(es, role, names)
  {
  }

  /** Nothing else changes: the keys, the other devices, the other roles and
      the other fields stay as they are. */
  lemma ReorderFrame(es: Entries, role: nat, names: seq<Key>, after: Entries)
    requires Sound(es) && role < NUM_ROLES && Acceptable(es, names)
    requires Reordered(es, role, names, after)
    ensures after.Keys == es.Keys
    ensures forall k :: k in es && k !in KindDevices(es, names) ==> after[k] == es[k]
    ensures forall k :: k in es ==> after[k] == es[k].(priority := after[k].priority)
    ensures forall k, r: nat :: k in es && r < NUM_ROLES && r != role ==> Prio(after, k, r) == Prio(es, k, r)
  {
    var order :| SortedFor(es, role, names, order) && Renumbered(es, after, role, order);
    MergedIsKind(es, names);
    forall k | k in es
      ensures k !in KindDevices(es, names) ==> after[k] == es[k]
      ensures after[k] == es[k].(priority := after[k].priority)
      ensures forall r: nat :: r < NUM_ROLES && r != role ==> Prio(after, k, r) == Prio(es, k, r)
    {
      if k in order {
        var i :| 0 <= i < |order| && order[i] == k;
        assert RenumberedAt(es, after, role, k, i);
      }
    }
  }

  // ----- When REORDER keeps the priorities distinct -----

  /** The merge loop stops at 256 named devices, so the unnamed ones then keep
      their old numbers. That is harmless exactly when those numbers lie
      behind the ones that the request hands out. */
  ghost predicate KeepsApart(es: Entries, role: nat, names: seq<Key>)
    requires role < NUM_ROLES && names != []
  {
    || |Dedup(names)| < MAX_NAMED
    || forall k :: k in KindDevices(es, names) && k !in names ==> Prio(es, k, role) > |Dedup(names)|
  }

  lemma SameDevices(es: Entries, after: Entries, kind: Kind)
    requires after.Keys == es.Keys
    ensures Devices(after, kind) == Devices(es, kind)
  {
  }

  lemma PermutationIsRanked(es: Entries, kind: Kind, role: nat)
    requires role < NUM_ROLES && IsPermutation(es, role, Devices(es, kind))
    ensures Ranked(es, kind, role)
  {
  }

  lemma SmallRequestRanked(es: Entries, role: nat, names: seq<Key>, after: Entries, order: seq<Key>)
    requires Sound(es) && role < NUM_ROLES && Acceptable(es, names) && |es| < TWO_TO_THE_32
    requires SortedFor(es, role, names, order) && Renumbered(es, after, role, order)
    requires |Dedup(names)| < MAX_NAMED
    ensures Ranked(after, ReorderKind(names), role)
  {
    OrderCoversKind(es, role, names, order);
    RenumberedPrio(es, after, role, order);
    OrderIsPermutation(after, role, KindDevices(es, names), order);
    SameDevices(es, after, ReorderKind(names));
    PermutationIsRanked(after, ReorderKind(names), role);
  }

  /** Numbering `order` from 1 leaves a set of devices ranked if and only if
      the others of the set lie behind it. */
  lemma PartlyRenumbered(es: Entries, after: Entries, role: nat, kind: Kind, order: seq<Key>)
    requires role < NUM_ROLES && Ranked(es, kind, role) && Devices(after, kind) == Devices(es, kind)
    requires forall k :: k in order ==> k in Devices(es, kind)
    requires forall i :: 0 <= i < |order| ==> Prio(after, order[i], role) == i + 1
    requires forall k :: k in Devices(es, kind) && k !in order ==> Prio(after, k, role) == Prio(es, k, role)
    ensures Ranked(after, kind, role)
            <==> forall k :: k in Devices(es, kind) && k !in order ==> Prio(es, k, role) > |order|
  {
    forall k | k in order
      ensures Prio(after, k, role) == Place(order, k) + 1 <= |order|
    {
    }
    if k :| k in Devices(es, kind) && k !in order && Prio(es, k, role) <= |order| {
      var rival := order[Prio(es, k, role) - 1];
      assert rival in order && Prio(after, rival, role) == Prio(after, k, role);
      assert !Ranked(after, kind, role);
    }
  }

  lemma LargeRequestOrder(es: Entries, role: nat, names: seq<Key>, order: seq<Key>)
    requires Sound(es) && role < NUM_ROLES && Acceptable(es, names)
    requires SortedFor(es, role, names, order) && |Dedup(names)| >= MAX_NAMED
    ensures |order| == |Dedup(names)|
    ensures forall k :: k in order <==> k in names
    ensures forall k :: k in order ==> k in KindDevices(es, names)
  {
    MergedIsKind(es, names);
    var s := set n | n in names;
    EnumerationSize(order, s);
    EnumerationSize(Dedup(names), s);
  }

  /** REORDER keeps the priorities of its role distinct and positive if and
      only if fewer than 256 devices are named or the unnamed ones are already
      numbered behind the request. */
  lemma ReorderDistinctIff(es: Entries, role: nat, names: seq<Key>, after: Entries)
    requires Sound(es) && role < NUM_ROLES && Acceptable(es, names) && |es| < TWO_TO_THE_32
    requires Ranked(es, ReorderKind(names), role)
    requires Reordered(es, role, names, after)
    ensures Ranked(after, ReorderKind(names), role) <==> KeepsApart(es, role, names)
  {
    var order :| SortedFor(es, role, names, order) && Renumbered(es, after, role, order);
    if |Dedup(names)| < MAX_NAMED {
      SmallRequestRanked(es, role, names, after, order);
    } else {
      OrderSize(es, role, names, order);
      LargeRequestOrder(es, role, names, order);
      RenumberedPrio(es, after, role, order);
      SameDevices(es, after, ReorderKind(names));
      PartlyRenumbered(es, after, role, ReorderKind(names), order);
    }
  }

  // ----- Every run -----

  lemma ReorderKeepsOthers(es: Entries, role: nat, names: seq<Key>, after: Entries, kind: Kind, r: nat)
    requires Sound(es) && role < NUM_ROLES && r < NUM_ROLES && Acceptable(es, names)
    requires Reordered(es, role, names, after) && Ranked(es, kind, r)
    requires r != role || kind != ReorderKind(names)
    ensures Ranked(after, kind, r)
  {
    ReorderFrame(es, role, names, after);
    SameDevices(es, after, kind);
    forall k | k in Devices(es, kind)
      ensures Prio(after, k, r) == Prio(es, k, r)
    {
      if r == role {
        KindsDisjoint(k);
        assert k !in KindDevices(es, names);
      }
    }
  }

  lemma ReorderKeepsBound(es: Entries, role: nat, names: seq<Key>, after: Entries, n: nat)
    requires Sound(es) && role < NUM_ROLES && Acceptable(es, names)
    requires Reordered(es, role, names, after) && BoundedBy(es, n) && n < TWO_TO_THE_32
    ensures BoundedBy(after, n)
  {
    var order :| SortedFor(es, role, names, order) && Renumbered(es, after, role, order);
    OrderSize(es, role, names, order);
    RenumberedPrio(es, after, role, order);
    ReorderFrame(es, role, names, after);
    assert |after.Keys| == |es.Keys|;
    forall k, r: nat | k in after && r < NUM_ROLES
      ensures Prio(after, k, r) <= n
    {
      if r == role && k in order {
        assert Prio(after, k, role) == Place(order, k) + 1;
      } else if r == role {
        assert Prio(after, k, r) == Prio(es, k, r);
      }
    }
  }

  lemma ReorderKeeps(es: Entries, role: nat, names: seq<Key>, after: Entries, n: nat)
    requires Invariant(es) && BoundedBy(es, n) && n < TWO_TO_THE_32
    requires role < NUM_ROLES && Acceptable(es, names) && KeepsApart(es, role, names)
    requires Reordered(es, role, names, after)
    ensures Invariant(after) && BoundedBy(after, n)
  {
    ReorderFrame(es, role, names, after);
    forall kind: Kind, r: nat | r < NUM_ROLES
      ensures Ranked(after, kind, r)
    {
      if kind == ReorderKind(names) && r == role {
        ReorderDistinctIff(es, role, names, after);
      } else {
        ReorderKeepsOthers(es, role, names, after, kind, r);
      }
    }
    ReorderKeepsBound(es, role, names, after, n);
  }

  datatype Command =
    | Register(kind: Kind, name: string, description: Option<string>, icon: Option<string>)
    | Rename(device: Key, newDescription: string)
    | Delete(names: seq<Key>)
    | Reorder(role: nat, request: seq<Key>)

  /** One command, successful or refused. The core gives every device a name;
      registering or renaming changes nothing when the write fails. */
  ghost predicate Step(es: Entries, c: Command, after: Entries) {
    match c
    case Register(kind, name, description, icon) =>
      name != "" && (after == es || after == Registered(es, kind, name, description, icon))
    case Rename(device, description) =>
      after == es || after == Renamed(es, device, description)
    case Delete(names) => after == Deleted(es, names)
    case Reorder(role, names) =>
      if role < NUM_ROLES && Acceptable(es, names) then Reordered(es, role, names, after) else after == es
  }

  /** The one command that can break the numbering, and exactly when it does not. */
  ghost predicate Safe(es: Entries, c: Command) {
    c.Reorder? && c.role < NUM_ROLES && Acceptable(es, c.request) ==> KeepsApart(es, c.role, c.request)
  }

  /** A run from the empty database. */
  ghost predicate Run(states: seq<Entries>, commands: seq<Command>) {
    && |states| == |commands| + 1
    && states[0] == map[]
    && forall i :: 0 <= i < |commands| ==> Safe(states[i], commands[i]) && Step(states[i], commands[i], states[i + 1])
  }

  lemma BoundGrows(es: Entries, n: nat)
    requires BoundedBy(es, n)
    ensures BoundedBy(es, n + 1)
  {
  }

  lemma StepKeeps(es: Entries, c: Command, after: Entries, n: nat)
    requires Invariant(es) && BoundedBy(es, n) && n + 1 < TWO_TO_THE_32
    requires Safe(es, c) && Step(es, c, after)
    ensures Invariant(after) && BoundedBy(after, n + 1)
  {
    BoundGrows(es, n);
    match c
    case Register(kind, name, description, icon) => RegisterKeeps(es, kind, name, description, icon, n);
    case Rename(device, description) => RenameKeeps(es, device, description, n + 1);
    case Delete(names) => DeleteKeeps(es, names, n + 1);
    case Reorder(role, names) =>
      if role < NUM_ROLES && Acceptable(es, names) {
        ReorderKeeps(es, role, names, after, n + 1);
      }
  }

  /** In every run of fewer than 2^32 commands every entry stays readable and
      the priorities of each kind and role stay positive and pairwise distinct. */
  lemma {:induction false} RunKeeps(states: seq<Entries>, commands: seq<Command>, i: nat)
    requires Run(states, commands) && |commands| < TWO_TO_THE_32
    requires i < |states|
    ensures Invariant(states[i]) && BoundedBy(states[i], i)
  {
    if i > 0 {
      RunKeeps(states, commands, i - 1);
      assert Safe(states[i - 1], commands[i - 1]) && Step(states[i - 1], commands[i - 1], states[i - 1 + 1]);
      StepKeeps(states[i - 1], commands[i - 1], states[i], i - 1);
    }
  }

  /** The user's choice of a name. */
  ghost predicate Chosen(es: Entries, key: Key, description: Option<string>) {
    key in es && es[key].userSetDescription && es[key].description == description
  }

  predicate LeavesName(c: Command, key: Key) {
    !(c.Rename? && c.device == key) && !(c.Delete? && key in c.names)
  }

  lemma ChoiceKept(es: Entries, c: Command, after: Entries, key: Key, description: Option<string>)
    requires Invariant(es) && Step(es, c, after) && Chosen(es, key, description)
    requires LeavesName(c, key)
    ensures Chosen(after, key, description)
  {
    if c.Reorder? && c.role < NUM_ROLES && Acceptable(es, c.request) {
      ReorderFrame(es, c.role, c.request, after);
    }
  }

  lemma ChoiceKeptAt(states: seq<Entries>, commands: seq<Command>, m: nat, key: Key, description: Option<string>)
    requires Run(states, commands) && |commands| < TWO_TO_THE_32 && m < |commands|
    requires Chosen(states[m], key, description) && LeavesName(commands[m], key)
    ensures Chosen(states[m + 1], key, description)
  {
    RunKeeps(states, commands, m);
    ChoiceKept(states[m], commands[m], states[m + 1], key, description);
  }

  /** In every run, a name that the user chose stays until the device is renamed
      again or deleted. */
  lemma {:induction false} ChoiceSticks(states: seq<Entries>, commands: seq<Command>, i: nat, j: nat, key: Key,
      description: Option<string>)
    requires Run(states, commands) && |commands| < TWO_TO_THE_32 && i <= j < |states|
    requires Chosen(states[i], key, description)
    requires forall m :: i <= m < j ==> LeavesName(commands[m], key)
    ensures Chosen(states[j], key, description)
    decreases j
  {
    if i < j {
      ChoiceSticks(states, commands, i, j - 1, key, description);
      ChoiceKeptAt(states, commands, j - 1, key, description);
    }
  }

  /** In a run, a REORDER that names fewer than 256 devices has its whole outcome:
      priorities that commands have given out are too small to wrap around. */
  lemma RunReorders(states: seq<Entries>, commands: seq<Command>, i: nat)
    requires Run(states, commands) && |commands| + MAX_NAMED <= TWO_TO_THE_32 && i < |commands|
    requires commands[i].Reorder? && commands[i].role < NUM_ROLES && Acceptable(states[i], commands[i].request)
    requires |Dedup(commands[i].request)| < MAX_NAMED
    ensures var es, after, role, names := states[i], states[i + 1], commands[i].role, commands[i].request;
            && NoWrap(es, role, names) && IsPermutation(after, role, KindDevices(es, names))
            && RequestFirst(es, role, names, after)
  {
    RunKeeps(states, commands, i);
    BoundedNeverWraps(states[i], commands[i].role, commands[i].request, i);
    ReorderOutcome(states[i], commands[i].role, commands[i].request, states[i + 1]);
  }

  // ----- The guard at 256, on a concrete database -----

  /** The i-th example sink: `sink:` followed by i letters. */
  ghost function ExampleSink(i: nat): Key {
    Key(Prefix(Sink) + seq(i, _ => 'a'))
  }

  ghost function ExampleNumber(k: Key): int {
    |k.text| - |Prefix(Sink)|
  }

  ghost function ExampleEntry(p: u32): Entry {
    Entry(ENTRY_VERSION, None, false, None, [p, p, p, p, p, p, p, p, p])
  }

  /** 257 sinks. Sink 257 is the favourite; sinks 1 to 256 follow it. */
  ghost function ExampleEntries(): Entries {
    var keys := set i: nat | 1 <= i <= MAX_NAMED + 1 :: ExampleSink(i);
    map k | k in keys :: ExampleEntry(if 1 <= ExampleNumber(k) <= MAX_NAMED then ExampleNumber(k) + 1 else 1)
  }

  /** The request names the first 256 of them in order. */
  ghost function ExampleRequest(): seq<Key> {
    seq(MAX_NAMED, i requires 0 <= i => ExampleSink(i + 1))
  }

  /** The database that REORDER leaves behind when `order` is its sorted list. */
  ghost function Renumber(es: Entries, role: nat, order: seq<Key>): Entries
    requires role < NUM_ROLES
  {
    map k | k in es :: if k in order then WithPriority(es[k], role, IndexOf(order, k) + 1) else es[k]
  }

  lemma RenumberIsRenumbered(es: Entries, role: nat, order: seq<Key>)
    requires role < NUM_ROLES && NoDuplicates(order) && forall k :: k in order ==> k in es
    ensures Renumbered(es, Renumber(es, role, order), role, order)
  {
  }

  lemma {:induction false} DedupOfDistinct(s: seq<Key>)
    requires NoDuplicates(s)
    ensures Dedup(s) == s
  {
    if s != [] {
      DedupOfDistinct(s[..|s| - 1]);
    }
  }

  lemma LargeDistinctRequest(es: Entries, role: nat, names: seq<Key>)
    requires role < NUM_ROLES && Acceptable(es, names) && NoDuplicates(names) && |names| >= MAX_NAMED
    ensures SortedFor(es, role, names, names)
    ensures Reordered(es, role, names, Renumber(es, role, names))
  {
    DedupOfDistinct(names);
    forall i | 0 <= i < |names|
      ensures SortKey(es, role, names, names[i]) == i
    {
      IndexOfAt(names, i);
    }
    assert SortedFor(es, role, names, names);
    RenumberIsRenumbered(es, role, names);
  }

  lemma ExampleShape()
    ensures forall i: nat :: ExampleNumber(ExampleSink(i)) == i
    ensures forall i: nat :: i > 0 ==> Names(ExampleSink(i), Sink)
    ensures forall k :: k in ExampleEntries() ==>
              1 <= ExampleNumber(k) <= MAX_NAMED + 1 && k == ExampleSink(ExampleNumber(k))
    ensures forall i: nat :: 1 <= i <= MAX_NAMED + 1 ==> ExampleSink(i) in ExampleEntries()
    ensures NoDuplicates(ExampleRequest())
    ensures |ExampleRequest()| == MAX_NAMED
    ensures forall i :: 0 <= i < MAX_NAMED ==> ExampleRequest()[i] == ExampleSink(i + 1)
  {
  }

  lemma ExampleRanked(kind: Kind, role: nat)
    requires role < NUM_ROLES
    ensures Ranked(ExampleEntries(), kind, role)
  {
    ExampleShape();
    var es := ExampleEntries();
    forall k | k in Devices(es, kind)
      ensures Prio(es, k, role) == if ExampleNumber(k) <= MAX_NAMED then ExampleNumber(k) + 1 else 1
    {
    }
  }

  lemma ExampleInvariant()
    ensures Invariant(ExampleEntries())
  {
    ExampleShape();
    forall kind: Kind, role: nat | role < NUM_ROLES
      ensures Ranked(ExampleEntries(), kind, role)
    {
      ExampleRanked(kind, role);
    }
  }

  lemma ExampleAcceptable()
    ensures Acceptable(ExampleEntries(), ExampleRequest())
    ensures ExampleSink(MAX_NAMED + 1) !in ExampleRequest()
  {
  }

  /** Whenever at least 256 sinks are named and another one has the number 1,
      REORDER hands that number out a second time. */
  lemma FavouriteClashes(es: Entries, names: seq<Key>, favourite: Key)
    requires Acceptable(es, names) && NoDuplicates(names) && |names| >= MAX_NAMED
    requires favourite in es && favourite !in names && Prio(es, favourite, 0) == 1
    requires Names(favourite, Sink) && Names(names[0], Sink)
    ensures !Ranked(Renumber(es, 0, names), Sink, 0)
  {
    var after := Renumber(es, 0, names);
    IndexOfAt(names, 0);
    assert names[0] in es && names[0] in names;
    assert after[names[0]] == WithPriority(es[names[0]], 0, 1);
    assert after[favourite] == es[favourite];
    assert Prio(after, names[0], 0) == Prio(after, favourite, 0);
    assert names[0] in Devices(after, Sink) && favourite in Devices(after, Sink);
  }

  /** The numbering does break: a REORDER that names 256 of 257 sinks gives the
      first named one the number that the unnamed favourite keeps. */
  lemma MergeGuardExample()
    ensures Invariant(ExampleEntries()) && Acceptable(ExampleEntries(), ExampleRequest())
    ensures Reordered(ExampleEntries(), 0, ExampleRequest(), Renumber(ExampleEntries(), 0, ExampleRequest()))
    ensures !Ranked(Renumber(ExampleEntries(), 0, ExampleRequest()), Sink, 0)
  {
    ExampleInvariant();
    ExampleAcceptable();
    ExampleDetails();
    LargeDistinctRequest(ExampleEntries(), 0, ExampleRequest());
    FavouriteClashes(ExampleEntries(), ExampleRequest(), ExampleSink(MAX_NAMED + 1));
  }

  /** Three sinks, the first with a priority near the end of the 32-bit range. */
  ghost function WrapEntries(): Entries {
    map[
      ExampleSink(1) := ExampleEntry(0xFFFF_FFFE),
      ExampleSink(2) := ExampleEntry(1),
      ExampleSink(3) := ExampleEntry(2)]
  }

  lemma ThreeSinks(a: Key, b: Key, c: Key)
    requires a == ExampleSink(1) && b == ExampleSink(2) && c == ExampleSink(3)
    ensures a != b && b != c && a != c && Names(a, Sink) && Names(b, Sink) && Names(c, Sink)
  {
    assert ExampleNumber(a) == 1 && ExampleNumber(b) == 2 && ExampleNumber(c) == 3;
  }

  lemma ThreeRanked(es: Entries, a: Key, b: Key, c: Key, kind: Kind, role: nat)
    requires role < NUM_ROLES && es.Keys == {a, b, c}
    requires Prio(es, b, role) == 1 && Prio(es, c, role) == 2 && Prio(es, a, role) > 2
    ensures Ranked(es, kind, role)
  {
    assert forall k :: k in Devices(es, kind) ==> k == a || k == b || k == c;
  }

  lemma WrapEntriesOk()
    ensures Invariant(WrapEntries())
  {
    var a, b, c := ExampleSink(1), ExampleSink(2), ExampleSink(3);
    ThreeSinks(a, b, c);
    var es := WrapEntries();
    forall kind: Kind, role: nat | role < NUM_ROLES
      ensures Ranked(es, kind, role)
    {
      assert es[a].priority[role] == 0xFFFF_FFFE && es[b].priority[role] == 1 && es[c].priority[role] == 2;
      ThreeRanked(es, a, b, c, kind, role);
    }
    assert forall k :: k in es ==> k == a || k == b || k == c;
  }

  lemma WrapKeys(es: Entries, d: seq<Key>, a: Key)
    requires |d| == 2 && NoDuplicates(d) && a !in d && Prio(es, a, 0) == 0xFFFF_FFFE
    ensures SortKey(es, 0, d, a) == 0 && SortKey(es, 0, d, d[0]) == 0 && SortKey(es, 0, d, d[1]) == 1
  {
    IndexOfAt(d, 0);
    IndexOfAt(d, 1);
  }

  lemma WrapMerges(es: Entries, names: seq<Key>, a: Key, b: Key, c: Key)
    requires names == [b, c] && Dedup(names) == names && es.Keys == {a, b, c}
    requires Names(a, Sink) && Names(b, Sink) && Names(c, Sink)
    ensures Acceptable(es, names) && Merged(es, names) == {a, b, c} && a in KindDevices(es, names)
  {
  }

  lemma ThreeSorted(es: Entries, names: seq<Key>, order: seq<Key>)
    requires names != [] && |order| == 3 && NoDuplicates(order) && forall k :: k in order <==> k in Merged(es, names)
    requires SortKey(es, 0, Dedup(names), order[0]) <= SortKey(es, 0, Dedup(names), order[1])
    requires SortKey(es, 0, Dedup(names), order[1]) <= SortKey(es, 0, Dedup(names), order[2])
    ensures SortedFor(es, 0, names, order)
  {
  }

  lemma WrapOrder(es: Entries, names: seq<Key>, a: Key, b: Key, c: Key)
    requires names == [b, c] && a != b && b != c && a != c && es.Keys == {a, b, c}
    requires Names(a, Sink) && Names(b, Sink) && Names(c, Sink) && Prio(es, a, 0) == 0xFFFF_FFFE
    ensures Acceptable(es, names) && !NoWrap(es, 0, names) && SortedFor(es, 0, names, [b, a, c])
  {
    DedupOfDistinct(names);
    WrapMerges(es, names, a, b, c);
    WrapKeys(es, names, a);
    ThreeSorted(es, names, [b, a, c]);
  }

  /** Naming the second and the third sink can put the unnamed first one between them. */
  lemma WrapExample()
    ensures var es, names, order := WrapEntries(), [ExampleSink(2), ExampleSink(3)],
              [ExampleSink(2), ExampleSink(1), ExampleSink(3)];
            && Invariant(es) && Acceptable(es, names) && !NoWrap(es, 0, names)
            && Reordered(es, 0, names, Renumber(es, 0, order))
            && Prio(Renumber(es, 0, order), ExampleSink(1), 0) == 2
            && Prio(Renumber(es, 0, order), ExampleSink(3), 0) == 3
  {
    var a, b, c := ExampleSink(1), ExampleSink(2), ExampleSink(3);
    var es, order := WrapEntries(), [b, a, c];
    ThreeSinks(a, b, c);
    WrapEntriesOk();
    assert es[a] == ExampleEntry(0xFFFF_FFFE);
    WrapOrder(es, [b, c], a, b, c);
    RenumberIsRenumbered(es, 0, order);
    RenumberedPrio(es, Renumber(es, 0, order), 0, order);
    assert order[1] == a && order[2] == c;
  }

  lemma ExampleDetails()
    ensures NoDuplicates(ExampleRequest()) && |ExampleRequest()| == MAX_NAMED
    ensures ExampleSink(MAX_NAMED + 1) in ExampleEntries() && Prio(ExampleEntries(), ExampleSink(MAX_NAMED + 1), 0) == 1
    ensures Names(ExampleSink(MAX_NAMED + 1), Sink) && Names(ExampleRequest()[0], Sink)
  {
    ExampleShape();
    assert ExampleRequest()[0] == ExampleSink(1);
  }
}
