/** The device manager of module-device-manager.c: an encoded database of
    device priorities, the commands that change it, and the cache of preferred
    devices. */
module DeviceManager {
  import opened Common
  import opened Tagstruct
  import opened DeviceEntry
  import opened DeviceDatabase
  import opened DeviceReorder
  import opened DevicePreference
  import opened DeviceSorts

  ghost function Decoded(db: map<Key, seq<Tag>>): Entries {
    map k | k in db && Decode(db[k]).Some? :: Decode(db[k]).value
  }

  ghost predicate AllReadable(db: map<Key, seq<Tag>>) {
    forall k :: k in db ==> Decode(db[k]).Some?
  }

  /** Every value under a key of the kind can be read. */
  ghost predicate KindReadable(db: map<Key, seq<Tag>>, kind: Kind) {
    forall k :: k in db && HasPrefix(k, kind) ==> Decode(db[k]).Some?
  }

  /** What the merge loop of REORDER relies on: when it runs, it does not meet an
      unreadable value under a key of the kind. */
  ghost predicate MergeReadable(db: map<Key, seq<Tag>>, names: seq<Key>) {
    names != [] && |Dedup(names)| < MAX_NAMED && Acceptable(Decoded(db), names) ==> KindReadable(db, ReorderKind(names))
  }

  lemma DecodedUpdate(db: map<Key, seq<Tag>>, key: Key, e: Entry)
    requires Storable(e)
    ensures Decoded(db[key := Encode(e)]) == Decoded(db)[key := e]
    ensures AllReadable(db) ==> AllReadable(db[key := Encode(e)])
  {
    DecodeIff(Encode(e), e);
  }

  lemma DecodedStorable(db: map<Key, seq<Tag>>)
    ensures forall k :: k in Decoded(db) ==> Storable(Decoded(db)[k])
  {
  }

  /** `m` is the greatest priority of the devices outside `todo`. */
  ghost predicate MaxSoFar(es: Entries, kind: Kind, role: nat, todo: set<Key>, m: nat)
    requires role < NUM_ROLES
  {
    && (forall k :: k in Devices(es, kind) - todo ==> Prio(es, k, role) <= m)
    && (m == 0 || exists k :: k in Devices(es, kind) - todo && Prio(es, k, role) == m)
  }

  lemma MaxSoFarIsMax(es: Entries, kind: Kind, role: nat, m: nat)
    requires role < NUM_ROLES && MaxSoFar(es, kind, role, {}, m)
    ensures m == MaxPriority(es, kind, role)
  {
    var s := set k | k in Devices(es, kind) :: Prio(es, k, role);
    forall k | k in Devices(es, kind)
      ensures Prio(es, k, role) in s && Prio(es, k, role) <= m
    {
      assert k in Devices(es, kind) - {};
    }
  }

  /** pa_streq over the role table. */
  method GetRoleIndex(role: string) returns (r: Option<nat>)
    ensures r.Some? ==> r.value < NUM_ROLES && ROLE_NAMES[r.value] == role
    ensures r.None? ==> role !in ROLE_NAMES
  {
    for i := 0 to NUM_ROLES
      invariant role !in ROLE_NAMES[..i]
    {
      if role == ROLE_NAMES[i] {
        return Some(i);
      }
      assert ROLE_NAMES[..i + 1] == ROLE_NAMES[..i] + [ROLE_NAMES[i]];
    }
    assert ROLE_NAMES[..NUM_ROLES] == ROLE_NAMES;
    r := None;
  }

  /** entries_equal: the version is not compared. */
  predicate EntriesEqual(a: Entry, b: Entry) {
    a.description == b.description && a.userSetDescription == b.userSetDescription
    && a.icon == b.icon && a.priority == b.priority
  }

  method Successors(m: seq<u32>) returns (p: Priorities)
    requires |m| == NUM_ROLES
    ensures forall i: nat :: i < NUM_ROLES ==> p[i] == Wrap32(m[i] as int + 1)
  {
    var r: seq<u32> := [];
    for i := 0 to NUM_ROLES
      invariant |r| == i
      invariant forall j: nat :: j < i ==> r[j] == Wrap32(m[j] as int + 1)
    {
      r := r + [Wrap32(m[i] as int + 1)];
    }
    p := r;
  }

  /** The search for an available device inside the refresh loop. */
  method FindDevice(devices: seq<Device>, name: string, ignore: Option<DeviceIndex>) returns (r: Option<DeviceIndex>)
    ensures r == FindLinked(devices, name, ignore)
    ensures r.None? ==> forall d :: d in devices ==> !Suits(d, name, ignore)
    ensures r.Some? ==> exists n: nat :: FirstSuiting(devices, n, name, ignore) && r.value == devices[n].index
  {
    for i := 0 to |devices|
      invariant forall m :: 0 <= m < i ==> !Suits(devices[m], name, ignore)
      invariant FindLinked(devices, name, ignore) == FindLinked(devices[i..], name, ignore)
    {
      if ignore != Some(devices[i].index) && devices[i].linked && devices[i].name == name {
        assert FirstSuiting(devices, i, name, ignore);
        return Some(devices[i].index);
      }
    }
    r := None;
  }

  ghost predicate Positive(es: Entries, kind: Kind, role: nat)
    requires role < NUM_ROLES
  {
    forall k :: k in Devices(es, kind) ==> Prio(es, k, role) >= 1
  }

  /** What the refresh leaves in the cache for a role. */
  ghost predicate Refreshed(es: Entries, devices: seq<Device>, kind: Kind, ignore: Option<DeviceIndex>,
      role: nat, idx: nat)
    requires role < NUM_ROLES
  {
    && CachesRoutable(es, devices, kind, ignore, idx)
    && (Positive(es, kind, role) ==> IsPreferred(es, devices, kind, ignore, role, idx))
  }

  /** After every run of commands a refresh leaves, for each role, the one
      available device of least priority, or "none" if there is none: a device of
      the core that is linked and not to be ignored, and that no other such device
      the database knows precedes. */
  lemma RunRefreshed(states: seq<Entries>, commands: seq<Command>, i: nat, devices: seq<Device>, kind: Kind,
                     ignore: Option<DeviceIndex>, role: nat, idx: nat)
    requires Run(states, commands) && |commands| < TWO_TO_THE_32 && i < |states| && role < NUM_ROLES
    requires Refreshed(states[i], devices, kind, ignore, role, idx)
    ensures IsPreferred(states[i], devices, kind, ignore, role, idx)
    ensures forall other: nat :: IsPreferred(states[i], devices, kind, ignore, role, other) ==> other == idx
    ensures CachesRoutable(states[i], devices, kind, ignore, idx)
    ensures idx != PA_INVALID_INDEX ==> CachesLeast(states[i], devices, kind, ignore, role, idx)
  {
    RunKeeps(states, commands, i);
    assert Ranked(states[i], kind, role);
    if idx != PA_INVALID_INDEX {
      PreferredIsLeast(states[i], devices, kind, ignore, role, idx);
    }
    forall other: nat | IsPreferred(states[i], devices, kind, ignore, role, other)
      ensures other == idx
    {
      PreferredUnique(states[i], devices, kind, ignore, role, other, idx);
    }
  }

  /** The key `best` stands for the cached `idx` after every key outside `todo` was seen. */
  ghost predicate BestIs(es: Entries, devices: seq<Device>, kind: Kind, ignore: Option<DeviceIndex>,
                         role: nat, todo: set<Key>, best: Key, highest: nat, idx: nat)
    requires role < NUM_ROLES
  {
    && best !in todo && Candidate(es, devices, kind, ignore, best)
    && Available(devices, kind, best, ignore) == Some(idx)
    && highest == Prio(es, best, role)
    && (Positive(es, kind, role) ==>
          forall k :: k !in todo && Candidate(es, devices, kind, ignore, k) ==> highest <= Prio(es, k, role))
  }

  ghost predicate BestSoFar(es: Entries, devices: seq<Device>, kind: Kind, ignore: Option<DeviceIndex>,
                            role: nat, todo: set<Key>, highest: nat, idx: nat)
    requires role < NUM_ROLES
  {
    if idx == PA_INVALID_INDEX then
      highest == 0 && forall k :: k !in todo ==> !Candidate(es, devices, kind, ignore, k)
    else
      exists best :: BestIs(es, devices, kind, ignore, role, todo, best, highest, idx)
  }

  /** The new key is available and replaces the best one so far. */
  lemma TakeBest(es: Entries, devices: seq<Device>, kind: Kind, ignore: Option<DeviceIndex>,
                 role: nat, todo: set<Key>, k: Key, highest: nat, idx: nat)
    requires role < NUM_ROLES && BestSoFar(es, devices, kind, ignore, role, todo, highest, idx)
    requires k in todo && Candidate(es, devices, kind, ignore, k)
    requires highest == 0 || Prio(es, k, role) < highest
    ensures BestSoFar(es, devices, kind, ignore, role, todo - {k}, Prio(es, k, role),
              Available(devices, kind, k, ignore).value)
  {
    var p, new_idx := Prio(es, k, role), Available(devices, kind, k, ignore).value;
    if idx != PA_INVALID_INDEX {
      var best :| BestIs(es, devices, kind, ignore, role, todo, best, highest, idx);
      assert Positive(es, kind, role) ==> highest >= 1;
    }
    assert BestIs(es, devices, kind, ignore, role, todo - {k}, k, p, new_idx);
  }

  /** The new key is not available, or does not precede the best one so far. */
  lemma KeepBest(es: Entries, devices: seq<Device>, kind: Kind, ignore: Option<DeviceIndex>,
                 role: nat, todo: set<Key>, k: Key, highest: nat, idx: nat)
    requires role < NUM_ROLES && BestSoFar(es, devices, kind, ignore, role, todo, highest, idx)
    requires !Candidate(es, devices, kind, ignore, k) || (highest > 0 && highest <= Prio(es, k, role))
    ensures BestSoFar(es, devices, kind, ignore, role, todo - {k}, highest, idx)
  {
    if idx != PA_INVALID_INDEX {
      var best :| BestIs(es, devices, kind, ignore, role, todo, best, highest, idx);
      assert BestIs(es, devices, kind, ignore, role, todo - {k}, best, highest, idx);
    }
  }

  lemma SkipAll(es: Entries, devices: seq<Device>, kind: Kind, ignore: Option<DeviceIndex>,
                todo: set<Key>, k: Key, highest: seq<nat>, indexes: seq<nat>)
    requires |highest| == |indexes| == NUM_ROLES && k !in Devices(es, kind)
    requires forall r: nat :: r < NUM_ROLES ==> BestSoFar(es, devices, kind, ignore, r, todo, highest[r], indexes[r])
    ensures forall r: nat :: r < NUM_ROLES ==>
              BestSoFar(es, devices, kind, ignore, r, todo - {k}, highest[r], indexes[r])
  {
    forall r: nat | r < NUM_ROLES
      ensures BestSoFar(es, devices, kind, ignore, r, todo - {k}, highest[r], indexes[r])
    {
      KeepBest(es, devices, kind, ignore, r, todo, k, highest[r], indexes[r]);
    }
  }

  lemma BestIsRefreshed(es: Entries, devices: seq<Device>, kind: Kind, ignore: Option<DeviceIndex>,
                        role: nat, highest: nat, idx: nat)
    requires role < NUM_ROLES && BestSoFar(es, devices, kind, ignore, role, {}, highest, idx)
    ensures Refreshed(es, devices, kind, ignore, role, idx)
  {
    PreferredIsRoutable(es, devices, kind, ignore, idx);
  }

  /** The hash map of REORDER after the named devices went in. */
  ghost predicate Numbered(h: map<Key, nat>, d: seq<Key>) {
    && h.Keys == (set k | k in d)
    && |h| == |d|
    && forall i :: 0 <= i < |d| ==> h[d[i]] == i
  }

  lemma NumberNext(h: map<Key, nat>, names: seq<Key>, i: nat)
    requires i < |names| && Numbered(h, Dedup(names[..i]))
    ensures Numbered(if names[i] in h then h else h[names[i] := |h|], Dedup(names[..i + 1]))
  {
    assert names[..i + 1][..i] == names[..i];
    if names[i] !in h {
      NumberedMore(h, Dedup(names[..i]), names[i]);
    }
  }

  lemma NumberedMore(h: map<Key, nat>, d: seq<Key>, k: Key)
    requires Numbered(h, d) && k !in h
    ensures Numbered(h[k := |h|], d + [k])
  {
  }

  ghost predicate AcceptableUpTo(es: Entries, names: seq<Key>, n: nat)
    requires names != [] && n <= |names|
  {
    forall i :: 0 <= i < n ==> names[i] in es && (i > 0 ==> HasPrefix(names[i], ReorderKind(names)))
  }

  ghost predicate KeyedBy(h: map<Key, nat>, es: Entries, role: nat, d: seq<Key>)
    requires role < NUM_ROLES
  {
    forall k :: k in h ==> h[k] == SortKey(es, role, d, k)
  }

  /** The hash map of REORDER when the keys of the kind outside `todo` were merged in. */
  ghost predicate MergedUpTo(h: map<Key, nat>, d: seq<Key>, mine: set<Key>, todo: set<Key>) {
    forall k :: k in h <==> k in d || (k in mine && k !in todo)
  }

  ghost function KeysOfKind(es: Entries, kind: Kind): set<Key> {
    set k | k in es && HasPrefix(k, kind)
  }

  lemma StartMerge(named: map<Key, nat>, es: Entries, d: seq<Key>, mine: set<Key>, todo: set<Key>, role: nat)
    requires role < NUM_ROLES && NoDuplicates(d) && Numbered(named, d) && mine <= todo
    ensures MergedUpTo(named, d, mine, todo)
    ensures KeyedBy(named, es, role, d)
  {
  }

  lemma MergeAdds(h: map<Key, nat>, es: Entries, d: seq<Key>, mine: set<Key>, todo: set<Key>, role: nat, k: Key)
    requires role < NUM_ROLES && k in todo && k in mine && k in es && k !in h
    requires MergedUpTo(h, d, mine, todo) && KeyedBy(h, es, role, d)
    ensures MergedUpTo(h[k := Wrap32(|d| + es[k].priority[role])], d, mine, todo - {k})
    ensures KeyedBy(h[k := Wrap32(|d| + es[k].priority[role])], es, role, d)
  {
  }

  lemma MergeSkips(h: map<Key, nat>, d: seq<Key>, mine: set<Key>, todo: set<Key>, k: Key)
    requires MergedUpTo(h, d, mine, todo) && (k !in mine || k in h)
    ensures MergedUpTo(h, d, mine, todo - {k})
  {
  }

  lemma EndMerge(h: map<Key, nat>, es: Entries, names: seq<Key>, todo: set<Key>)
    requires names != [] && MergedUpTo(h, Dedup(names), KeysOfKind(es, ReorderKind(names)), todo)
    requires if |Dedup(names)| < MAX_NAMED then todo == {} else es.Keys <= todo
    ensures h.Keys == Merged(es, names)
  {
  }

  /** The first `n` devices of `order` are renumbered, everything else is as before. */
  ghost predicate RenumberedUpTo(before: Entries, after: Entries, role: nat, order: seq<Key>, n: nat)
    requires role < NUM_ROLES && n <= |order|
  {
    && after.Keys == before.Keys
    && (forall k :: k in before && k !in order[..n] ==> after[k] == before[k])
    && forall i :: 0 <= i < n ==> RenumberedAt(before, after, role, order[i], i)
  }

  lemma RenumberNext(before: Entries, after: Entries, role: nat, order: seq<Key>, i: nat)
    requires role < NUM_ROLES && i < |order| && NoDuplicates(order) && order[i] in before
    requires RenumberedUpTo(before, after, role, order, i)
    ensures order[i] in after && after[order[i]] == before[order[i]]
    ensures RenumberedUpTo(before, after[order[i] := WithPriority(after[order[i]], role, i + 1)], role, order, i + 1)
    ensures after[order[i]].priority[role] == Wrap32(i + 1) ==>
              after[order[i] := WithPriority(after[order[i]], role, i + 1)] == after
  {
    assert order[i] !in order[..i];
    assert order[..i + 1] == order[..i] + [order[i]];
    var g := after[order[i] := WithPriority(after[order[i]], role, i + 1)];
    forall j | 0 <= j < i + 1
      ensures RenumberedAt(before, g, role, order[j], j)
    {
      assert j < i ==> RenumberedAt(before, after, role, order[j], j);
    }
    if after[order[i]].priority[role] == Wrap32(i + 1) {
      assert after[order[i]].priority[role := Wrap32(i + 1)] == after[order[i]].priority;
    }
  }

  /** The counter of the last loop of REORDER, in 32-bit arithmetic. */
  method Following(ghost n: nat, idx: nat) returns (next: nat)
    requires idx == Wrap32(n)
    ensures next == Wrap32(n + 1)
  {
    next := Wrap32(idx + 1);
  }

  // ----- From the hash map to the sorted list -----

  /** An array of records with one record for each key of the map. */
  ghost predicate Lists(s: seq<RankedDevice>, h: map<Key, nat>) {
    && (forall i :: 0 <= i < |s| ==> s[i].device in h && s[i].prio == h[s[i].device])
    && (forall k :: k in h ==> RankedDevice(h[k], k) in s)
    && forall i, j :: 0 <= i < j < |s| ==> s[i] != s[j]
  }

  lemma {:induction false} CountsOnce<T>(s: seq<T>, x: T)
    requires forall i, j :: 0 <= i < j < |s| ==> s[i] != s[j]
    ensures multiset(s)[x] <= 1
  {
    if s != [] {
      var n := |s| - 1;
      assert s == s[..n] + [s[n]];
      CountsOnce(s[..n], x);
      if s[n] == x {
        assert x !in s[..n];
        assert multiset(s[..n])[x] == 0;
      }
    }
  }

  lemma TwiceCounts<T>(s: seq<T>, i: nat, j: nat)
    requires i < j < |s| && s[i] == s[j]
    ensures multiset(s)[s[i]] >= 2
  {
    assert s == s[..j] + s[j..];
    assert s[i] in s[..j] && s[j] in s[j..];
  }

  lemma PermutedDistinct<T>(s: seq<T>, t: seq<T>)
    requires multiset(t) == multiset(s) && forall i, j :: 0 <= i < j < |s| ==> s[i] != s[j]
    ensures forall i, j :: 0 <= i < j < |t| ==> t[i] != t[j]
  {
    forall i, j | 0 <= i < j < |t|
      ensures t[i] != t[j]
    {
      CountsOnce(s, t[i]);
      if t[i] == t[j] {
        TwiceCounts(t, i, j);
      }
    }
  }

  /** A permutation of such an array is such an array. */
  lemma PermutedLists(s: seq<RankedDevice>, t: seq<RankedDevice>, h: map<Key, nat>)
    requires Lists(s, h) && multiset(t) == multiset(s)
    ensures Lists(t, h)
  {
    forall x
      ensures x in t <==> x in s
    {
      assert x in t <==> x in multiset(t);
    }
    forall i | 0 <= i < |t|
      ensures t[i].device in h && t[i].prio == h[t[i].device]
    {
      assert t[i] in s;
    }
    PermutedDistinct(s, t);
  }

  /** Turn the hash map into an array, sort it, and read off the devices. */
  method SortRanks(h: map<Key, nat>) returns (order: seq<Key>)
    ensures NoDuplicates(order)
    ensures forall k :: k in order <==> k in h
    ensures forall i, j :: 0 <= i < j < |order| ==> order[i] in h && order[j] in h && h[order[i]] <= h[order[j]]
  {
    var records := Records(h);
    var a := new RankedDevice[|records|](i requires 0 <= i < |records| => records[i]);
    assert a[..] == records;
    ExchangeSort(a);
    PermutedLists(records, a[..], h);
    order := DevicesOf(a[..]);
    forall k | k in h
      ensures k in order
    {
      assert RankedDevice(h[k], k) in a[..];
      var i :| 0 <= i < a.Length && a[i] == RankedDevice(h[k], k);
      assert order[i] == k;
    }
    forall i, j | 0 <= i < j < |order|
      ensures order[i] != order[j]
    {
      assert a[..][i] != a[..][j];
    }
  }

  /** pa_hashmap_steal_first until the map is empty. */
  method Records(h: map<Key, nat>) returns (s: seq<RankedDevice>)
    ensures Lists(s, h)
  {
    s := [];
    var todo := h.Keys;
    while todo != {}
      invariant todo <= h.Keys
      invariant forall i :: 0 <= i < |s| ==> s[i].device in h && s[i].device !in todo && s[i].prio == h[s[i].device]
      invariant forall k :: k in h && k !in todo ==> RankedDevice(h[k], k) in s
      invariant forall i, j :: 0 <= i < j < |s| ==> s[i] != s[j]
    {
      var k :| k in todo;
      s := s + [RankedDevice(h[k], k)];
      todo := todo - {k};
    }
  }

  method DevicesOf(s: seq<RankedDevice>) returns (order: seq<Key>)
    ensures |order| == |s| && forall i :: 0 <= i < |s| ==> order[i] == s[i].device
  {
    order := [];
    for i := 0 to |s|
      invariant |order| == i && forall j :: 0 <= j < i ==> order[j] == s[j].device
    {
      order := order + [s[i].device];
    }
  }

  lemma OrderIsSorted(h: map<Key, nat>, es: Entries, role: nat, names: seq<Key>, order: seq<Key>)
    requires role < NUM_ROLES && names != []
    requires h.Keys == Merged(es, names) && KeyedBy(h, es, role, Dedup(names))
    requires NoDuplicates(order) && forall k :: k in order <==> k in h
    requires forall i, j :: 0 <= i < j < |order| ==> order[i] in h && order[j] in h && h[order[i]] <= h[order[j]]
    ensures SortedFor(es, role, names, order)
  {
  }

  lemma SortedIsKnown(es: Entries, role: nat, names: seq<Key>, order: seq<Key>)
    requires role < NUM_ROLES && Acceptable(es, names) && SortedFor(es, role, names, order)
    ensures forall k :: k in order ==> k in es
  {
  }

  // ----- Start-up -----

  /** Registering devices one after the other. */
  ghost function RegisteredAll(es: Entries, kind: Kind, order: seq<Device>): Entries {
    if order == [] then es else
      var d := order[|order| - 1];
      var before := RegisteredAll(es, kind, order[..|order| - 1]);
      if kind.Source? && d.monitor then before else Registered(before, kind, d.name, d.description, d.icon)
  }

  /** subscribe_callback leaves monitor sources alone. */
  ghost predicate Managed(kind: Kind, d: Device) {
    d.name != "" && !(kind.Source? && d.monitor)
  }

  lemma KeysDiffer(kind: Kind, a: Device, b: Device)
    requires a.name != b.name
    ensures KeyOf(kind, a) != KeyOf(kind, b)
  {
    assert KeyOf(kind, a).text[|Prefix(kind)|..] == a.name;
    assert KeyOf(kind, b).text[|Prefix(kind)|..] == b.name;
  }

  lemma {:induction false} RegisteredAllKeeps(es: Entries, kind: Kind, order: seq<Device>, n: nat)
    requires Invariant(es) && BoundedBy(es, n) && n + |order| < TWO_TO_THE_32
    requires forall d :: d in order ==> d.name != ""
    ensures Invariant(RegisteredAll(es, kind, order)) && BoundedBy(RegisteredAll(es, kind, order), n + |order|)
  {
    if order != [] {
      var m := |order| - 1;
      var d := order[m];
      RegisteredAllKeeps(es, kind, order[..m], n);
      var before := RegisteredAll(es, kind, order[..m]);
      BoundGrows(before, n + m);
      RegisterKeeps(before, kind, d.name, d.description, d.icon, n + m);
    }
  }

  /** Registering further devices of other names changes nothing about a device. */
  lemma {:induction false} RegisteredAllFrame(es: Entries, kind: Kind, order: seq<Device>, key: Key)
    requires forall d :: d in order ==> KeyOf(kind, d) != key
    ensures key in RegisteredAll(es, kind, order) <==> key in es
    ensures key in es ==> RegisteredAll(es, kind, order)[key] == es[key]
  {
    if order != [] {
      RegisteredAllFrame(es, kind, order[..|order| - 1], key);
      assert order[|order| - 1] in order;
    }
  }

  lemma {:induction false} RegisteredAllSplits(es: Entries, kind: Kind, a: seq<Device>, b: seq<Device>)
    ensures RegisteredAll(es, kind, a + b) == RegisteredAll(RegisteredAll(es, kind, a), kind, b)
  {
    if b == [] {
      assert a + b == a;
    } else {
      var m := |b| - 1;
      assert (a + b)[..|a + b| - 1] == a + b[..m];
      RegisteredAllSplits(es, kind, a, b[..m]);
    }
  }

  ghost predicate NumberedBehind(es: Entries, first: Key, second: Key, role: nat)
    requires role < NUM_ROLES
  {
    first in es && second in es && Prio(es, first, role) < Prio(es, second, role)
  }

  lemma NewcomerIsLast(es: Entries, kind: Kind, d: Device, n: nat, key: Key, role: nat)
    requires BoundedBy(es, n) && n + 1 < TWO_TO_THE_32 && role < NUM_ROLES
    requires KeyOf(kind, d) !in es && key in Devices(es, kind)
    ensures NumberedBehind(Registered(es, kind, d.name, d.description, d.icon), key, KeyOf(kind, d), role)
  {
    RegisteredPriority(es, kind, KeyOf(kind, d), d.description, d.icon, n, role);
    MaxPriorityBounds(es, kind, role, n);
  }

  lemma StaysNew(es: Entries, kind: Kind, order: seq<Device>, d: Device)
    requires KeyOf(kind, d) !in es && forall a :: a in order ==> a.name != d.name
    ensures KeyOf(kind, d) !in RegisteredAll(es, kind, order)
  {
    forall a | a in order
      ensures KeyOf(kind, a) != KeyOf(kind, d)
    {
      KeysDiffer(kind, a, d);
    }
    RegisteredAllFrame(es, kind, order, KeyOf(kind, d));
  }

  /** Start-up makes exactly the devices of the core known that are managed; monitor
      sources stay out. */
  lemma {:induction false} RegisteredAllKeys(es: Entries, kind: Kind, order: seq<Device>, key: Key)
    requires forall d :: d in order ==> d.name != ""
    ensures key in RegisteredAll(es, kind, order)
            <==> key in es || exists d :: d in order && !(kind == Source && d.monitor) && KeyOf(kind, d) == key
  {
    if order != [] {
      RegisteredAllKeys(es, kind, order[..|order| - 1], key);
      assert order == order[..|order| - 1] + [order[|order| - 1]];
      assert order[|order| - 1] in order;
    }
  }

  /** The last device of a registration, when the database does not know it yet. */
  lemma LastInOrder(es: Entries, kind: Kind, order: seq<Device>, d: Device, n: nat, i: nat, role: nat)
    requires Invariant(es) && BoundedBy(es, n) && n + |order| + 1 < TWO_TO_THE_32 && role < NUM_ROLES
    requires forall a :: a in order ==> a.name != "" && a.name != d.name
    requires i < |order| && Managed(kind, order[i]) && Managed(kind, d) && KeyOf(kind, d) !in es
    ensures NumberedBehind(RegisteredAll(es, kind, order + [d]), KeyOf(kind, order[i]), KeyOf(kind, d), role)
  {
    RegisteredAllKeeps(es, kind, order, n);
    StaysNew(es, kind, order, d);
    RegisteredIsKnown(es, kind, order, i);
    NewcomerIsLast(RegisteredAll(es, kind, order), kind, d, n + |order|, KeyOf(kind, order[i]), role);
    RegisterOneMore(es, kind, order, d);
  }

  lemma RegisterOneMore(es: Entries, kind: Kind, order: seq<Device>, d: Device)
    requires Managed(kind, d)
    ensures RegisteredAll(es, kind, order + [d])
         == Registered(RegisteredAll(es, kind, order), kind, d.name, d.description, d.icon)
  {
    assert (order + [d])[..|order|] == order;
  }

  /** First-time registration: a device that the database does not know yet is
      numbered behind every device registered before it, for every role. With
      the order of the start-up sort, devices of higher priority get lower numbers. */
  lemma FirstTimeOrder(es: Entries, kind: Kind, order: seq<Device>, n: nat, i: nat, j: nat, role: nat)
    requires Invariant(es) && BoundedBy(es, n) && n + |order| < TWO_TO_THE_32 && role < NUM_ROLES
    requires forall d :: d in order ==> d.name != ""
    requires forall a, b :: 0 <= a < b < |order| ==> order[a].name != order[b].name
    requires i < j < |order| && Managed(kind, order[i]) && Managed(kind, order[j])
    requires KeyOf(kind, order[j]) !in es
    ensures Prio(RegisteredAll(es, kind, order), KeyOf(kind, order[i]), role)
          < Prio(RegisteredAll(es, kind, order), KeyOf(kind, order[j]), role)
  {
    var head, tail := order[..j], order[j + 1..];
    assert order == (head + [order[j]]) + tail;
    RegisteredAllSplits(es, kind, head + [order[j]], tail);
    LastInOrder(es, kind, head, order[j], n, i, role);
    forall d | d in tail
      ensures KeyOf(kind, d) != KeyOf(kind, order[i]) && KeyOf(kind, d) != KeyOf(kind, order[j])
    {
      KeysDiffer(kind, d, order[i]);
      KeysDiffer(kind, d, order[j]);
    }
    RegisteredAllFrame(RegisteredAll(es, kind, head + [order[j]]), kind, tail, KeyOf(kind, order[i]));
    RegisteredAllFrame(RegisteredAll(es, kind, head + [order[j]]), kind, tail, KeyOf(kind, order[j]));
  }

  /** The core gives every device a name of its own. */
  ghost predicate WellNamed(devices: seq<Device>) {
    && (forall d :: d in devices ==> d.name != "")
    && forall a, b :: a in devices && b in devices && a != b ==> a.name != b.name
  }

  ghost predicate ByPriority(order: seq<Device>) {
    forall i, j :: 0 <= i < j < |order| ==> order[i].priority >= order[j].priority
  }

  ghost predicate DistinctDevices(order: seq<Device>) {
    forall i, j :: 0 <= i < j < |order| ==> order[i] != order[j]
  }

  /** A device that was unknown is numbered, for every role, behind every device
      whose driver gives it a higher priority. */
  ghost predicate NumberedByPriority(es: Entries, after: Entries, kind: Kind, devices: seq<Device>) {
    forall a, b, role: nat ::
      a in devices && b in devices && role < NUM_ROLES && Newcomer(es, kind, a, b) ==>
        Prio(after, KeyOf(kind, a), role) < Prio(after, KeyOf(kind, b), role)
  }

  ghost predicate Newcomer(es: Entries, kind: Kind, a: Device, b: Device) {
    Managed(kind, a) && Managed(kind, b) && KeyOf(kind, b) !in es && a.priority > b.priority
  }

  /** The same devices, each once, in any order. */
  ghost predicate SameDeviceList(devices: seq<Device>, order: seq<Device>) {
    |order| == |devices| && DistinctDevices(order) && forall d :: d in order <==> d in devices
  }

  lemma OneKindByPriority(es: Entries, kind: Kind, order: seq<Device>, n: nat)
    requires Invariant(es) && BoundedBy(es, n) && n + |order| < TWO_TO_THE_32
    requires WellNamed(order) && DistinctDevices(order) && ByPriority(order)
    ensures NumberedByPriority(es, RegisteredAll(es, kind, order), kind, order)
  {
    forall a, b, role: nat | a in order && b in order && role < NUM_ROLES && Newcomer(es, kind, a, b)
      ensures Prio(RegisteredAll(es, kind, order), KeyOf(kind, a), role)
            < Prio(RegisteredAll(es, kind, order), KeyOf(kind, b), role)
    {
      var i :| 0 <= i < |order| && order[i] == a;
      var j :| 0 <= j < |order| && order[j] == b;
      FirstTimeOrder(es, kind, order, n, i, j, role);
    }
  }

  /** Registering devices of the other kind leaves a device as it is. */
  lemma OtherKindFrame(es: Entries, kind: Kind, order: seq<Device>, key: Key)
    requires Names(key, Sink) || Names(key, Source)
    requires !HasPrefix(key, kind)
    ensures key in RegisteredAll(es, kind, order) <==> key in es
    ensures key in es ==> RegisteredAll(es, kind, order)[key] == es[key]
  {
    forall d | d in order
      ensures KeyOf(kind, d) != key
    {
      assert HasPrefix(KeyOf(kind, d), kind);
    }
    RegisteredAllFrame(es, kind, order, key);
  }

  /** After start-up both kinds are numbered by the priorities of their drivers. */
  lemma StartupByPriority(es: Entries, sinks: seq<Device>, sources: seq<Device>, n: nat)
    requires Invariant(es) && BoundedBy(es, n) && n + |sinks| + |sources| < TWO_TO_THE_32
    requires WellNamed(sinks) && DistinctDevices(sinks) && ByPriority(sinks)
    requires WellNamed(sources) && DistinctDevices(sources) && ByPriority(sources)
    ensures var after := RegisteredAll(RegisteredAll(es, Sink, sinks), Source, sources);
            NumberedByPriority(es, after, Sink, sinks) && NumberedByPriority(es, after, Source, sources)
  {
    var mid := RegisteredAll(es, Sink, sinks);
    var after := RegisteredAll(mid, Source, sources);
    OneKindByPriority(es, Sink, sinks, n);
    forall a, b, role: nat | a in sinks && b in sinks && role < NUM_ROLES && Newcomer(es, Sink, a, b)
      ensures Prio(after, KeyOf(Sink, a), role) < Prio(after, KeyOf(Sink, b), role)
    {
      SinkStays(mid, sources, a, role);
      SinkStays(mid, sources, b, role);
    }
    RegisteredAllKeeps(es, Sink, sinks, n);
    OneKindByPriority(mid, Source, sources, n + |sinks|);
    forall a, b, role: nat | a in sources && b in sources && role < NUM_ROLES && Newcomer(es, Source, a, b)
      ensures Prio(after, KeyOf(Source, a), role) < Prio(after, KeyOf(Source, b), role)
    {
      KindsDisjoint(KeyOf(Source, b));
      OtherKindFrame(es, Sink, sinks, KeyOf(Source, b));
      assert Newcomer(mid, Source, a, b);
    }
  }

  lemma SinkStays(mid: Entries, sources: seq<Device>, d: Device, role: nat)
    requires role < NUM_ROLES && d.name != ""
    ensures Prio(RegisteredAll(mid, Source, sources), KeyOf(Sink, d), role) == Prio(mid, KeyOf(Sink, d), role)
  {
    KindsDisjoint(KeyOf(Sink, d));
    OtherKindFrame(mid, Source, sources, KeyOf(Sink, d));
  }

  lemma {:induction false} RegisteredIsKnown(es: Entries, kind: Kind, order: seq<Device>, i: nat)
    requires i < |order| && Managed(kind, order[i])
    ensures KeyOf(kind, order[i]) in Devices(RegisteredAll(es, kind, order), kind)
  {
    if i < |order| - 1 {
      RegisteredIsKnown(es, kind, order[..|order| - 1], i);
    }
  }

  ghost function IndexAndPriority(d: Device): PrioritisedIndex {
    PrioritisedIndex(d.index, d.priority)
  }

  lemma SameElements(s: seq<PrioritisedIndex>, t: seq<PrioritisedIndex>)
    requires multiset(s) == multiset(t)
    ensures forall x :: x in s <==> x in t
    ensures |s| == |t|
  {
    assert |s| == |multiset(s)| == |multiset(t)| == |t|;
    forall x
      ensures x in s <==> x in t
    {
      assert x in s <==> x in multiset(s);
    }
  }

  method SortedIndexes(devices: seq<Device>) returns (s: seq<PrioritisedIndex>)
    requires forall i, j :: 0 <= i < j < |devices| ==> devices[i].index != devices[j].index
    ensures forall i, j :: 0 <= i < j < |s| ==> s[i] != s[j]
    ensures |s| == |devices| && Descending(s)
    ensures forall i :: 0 <= i < |devices| ==> IndexAndPriority(devices[i]) in s
    ensures forall j :: 0 <= j < |s| ==> exists i :: 0 <= i < |devices| && IndexAndPriority(devices[i]) == s[j]
  {
    var a := new PrioritisedIndex[|devices|](i requires 0 <= i < |devices| =>
      PrioritisedIndex(devices[i].index, devices[i].priority));
    ghost var unsorted := a[..];
    StartupSort(a);
    s := a[..];
    SameElements(unsorted, s);
    PermutedDistinct(unsorted, s);
    forall i | 0 <= i < |devices|
      ensures IndexAndPriority(devices[i]) in s
    {
      assert unsorted[i] == IndexAndPriority(devices[i]);
    }
    forall j | 0 <= j < |s|
      ensures exists i :: 0 <= i < |devices| && IndexAndPriority(devices[i]) == s[j]
    {
      assert s[j] in unsorted;
      var i :| 0 <= i < |unsorted| && unsorted[i] == s[j];
      assert IndexAndPriority(devices[i]) == s[j];
    }
  }

  /** Sort the devices through the index-and-priority array, and look each one
      up by its index. */
  method SortDevices(devices: seq<Device>) returns (order: seq<Device>)
    requires forall i, j :: 0 <= i < j < |devices| ==> devices[i].index != devices[j].index
    ensures SameDeviceList(devices, order) && ByPriority(order)
  {
    var s := SortedIndexes(devices);
    order := [];
    for i := 0 to |s|
      invariant |order| == i
      invariant forall j :: 0 <= j < i ==> order[j] in devices && IndexAndPriority(order[j]) == s[j]
    {
      var d := DeviceByIndex(devices, s[i]);
      order := order + [d];
    }
    forall d | d in devices
      ensures d in order
    {
      assert IndexAndPriority(d) in s;
      var j :| 0 <= j < |s| && s[j] == IndexAndPriority(d);
      assert order[j].index == d.index;
    }
    forall i, j | 0 <= i < j < |order|
      ensures order[i].priority >= order[j].priority && order[i] != order[j]
    {
      assert s[i].priority >= s[j].priority && s[i] != s[j];
    }
  }

  /** pa_idxset_get_by_index */
  method DeviceByIndex(devices: seq<Device>, p: PrioritisedIndex) returns (d: Device)
    requires forall i, j :: 0 <= i < j < |devices| ==> devices[i].index != devices[j].index
    requires exists i :: 0 <= i < |devices| && IndexAndPriority(devices[i]) == p
    ensures d in devices && IndexAndPriority(d) == p
  {
    var i := 0;
    while devices[i].index != p.index
      invariant 0 <= i < |devices|
      invariant forall j :: 0 <= j < i ==> devices[j].index != p.index
      decreases |devices| - i
    {
      i := i + 1;
    }
    d := devices[i];
  }

  class DeviceManager {
    var db: map<Key, seq<Tag>>
    var doRouting: bool
    const preferredSinks: array<nat>
    const preferredSources: array<nat>

    ghost predicate Valid() {
      && preferredSinks.Length == NUM_ROLES
      && preferredSources.Length == NUM_ROLES
      && preferredSinks != preferredSources
    }

    ghost function View(): Entries
      reads this
    {
      Decoded(db)
    }

    constructor (doRouting: bool)
      ensures Valid() && db == map[] && this.doRouting == doRouting
      ensures fresh(preferredSinks) && fresh(preferredSources)
    {
      db := map[];
      this.doRouting := doRouting;
      preferredSinks := new nat[NUM_ROLES](_ => PA_INVALID_INDEX);
      preferredSources := new nat[NUM_ROLES](_ => PA_INVALID_INDEX);
    }

    method EntryRead(key: Key) returns (r: Option<Entry>)
      ensures r == if key in View() then Some(View()[key]) else None
    {
      if key !in db {
        return None;
      }
      r := Read(db[key]);
    }

    method EntryWrite(key: Key, e: Entry)
      requires Storable(e)
      modifies this`db
      ensures View() == old(View())[key := e]
      ensures db == old(db)[key := Encode(e)]
      ensures old(AllReadable(db)) ==> AllReadable(db)
    {
      var data := Write(e);
      DecodedUpdate(db, key, e);
      db := db[key := data];
    }

    /** load_or_initialize_entry: the known entry, or priorities behind those
        of every known device of the kind. */
    method LoadOrInitialize(key: Key, kind: Kind) returns (known: Option<Entry>, priority: Priorities)
      ensures known == if key in View() then Some(View()[key]) else None
      ensures priority == if key in View() then View()[key].priority else NewPriorities(View(), kind)
    {
      known := EntryRead(key);
      if known.Some? {
        return known, known.value.priority;
      }
      var maxPriority := MaxPriorities(kind);
      priority := Successors(maxPriority);
      assert priority == NewPriorities(View(), kind);
    }

    /** The walk over the database inside load_or_initialize_entry. */
    method MaxPriorities(kind: Kind) returns (maxPriority: seq<u32>)
      ensures |maxPriority| == NUM_ROLES
      ensures forall r: nat :: r < NUM_ROLES ==> maxPriority[r] == MaxPriority(View(), kind, r)
    {
      maxPriority := [0, 0, 0, 0, 0, 0, 0, 0, 0];
      var todo := db.Keys;
      while todo != {}
        invariant todo <= db.Keys && |maxPriority| == NUM_ROLES
        invariant forall r: nat :: r < NUM_ROLES ==> MaxSoFar(View(), kind, r, todo, maxPriority[r])
      {
        var k :| k in todo;
        if Names(k, kind) {
          var e := EntryRead(k);
          if e.Some? {
            maxPriority := Raise(kind, todo, maxPriority, k, e.value.priority);
          }
        }
        assert k !in Devices(View(), kind) ==> Devices(View(), kind) - (todo - {k}) == Devices(View(), kind) - todo;
        todo := todo - {k};
      }
      forall r: nat | r < NUM_ROLES
        ensures maxPriority[r] == MaxPriority(View(), kind, r)
      {
        MaxSoFarIsMax(View(), kind, r, maxPriority[r]);
      }
    }

    /** The loop over the roles inside load_or_initialize_entry. */
    method Raise(kind: Kind, ghost todo: set<Key>, maxPriority: seq<u32>, k: Key, p: Priorities) returns (m: seq<u32>)
      requires |maxPriority| == NUM_ROLES && k in todo
      requires k in Devices(View(), kind) && View()[k].priority == p
      requires forall r: nat :: r < NUM_ROLES ==> MaxSoFar(View(), kind, r, todo, maxPriority[r])
      ensures |m| == NUM_ROLES
      ensures forall r: nat :: r < NUM_ROLES ==> MaxSoFar(View(), kind, r, todo - {k}, m[r])
    {
      m := maxPriority;
      for i := 0 to NUM_ROLES
        invariant |m| == NUM_ROLES
        invariant forall r: nat :: i <= r < NUM_ROLES ==> m[r] == maxPriority[r]
        invariant forall r: nat :: r < i ==> MaxSoFar(View(), kind, r, todo - {k}, m[r])
      {
        assert MaxSoFar(View(), kind, i, todo, maxPriority[i]);
        var raised := if m[i] > p[i] then m[i] else p[i];
        assert MaxSoFar(View(), kind, i, todo - {k}, raised) by {
          assert Devices(View(), kind) - (todo - {k}) == (Devices(View(), kind) - todo) + {k};
        }
        m := m[i := raised];
      }
    }

    /** subscribe_callback for a sink or source that is new or has changed.
        Monitor sources are not managed. `writes` says whether the database
        accepts the write. */
    method Register(kind: Kind, device: Device, writes: bool)
      modifies this`db
      ensures (kind.Source? && device.monitor) || !writes ==> db == old(db)
      ensures !(kind.Source? && device.monitor) && writes ==>
                View() == Registered(old(View()), kind, device.name, device.description, device.icon)
      ensures old(AllReadable(db)) ==> AllReadable(db)
    {
      if kind.Source? && device.monitor {
        return;
      }
      var key := Key(Prefix(kind) + device.name);
      var known, priority := LoadOrInitialize(key, kind);
      var e: Entry;
      if known.Some? {
        e := known.value.(
          description := if known.value.userSetDescription then known.value.description else device.description,
          icon := device.icon);
        if EntriesEqual(known.value, e) {
          assert View()[key := e] == View();
          return;
        }
      } else {
        e := Entry(ENTRY_VERSION, device.description, false, device.icon, priority);
      }
      DecodedStorable(db);
      if writes {
        EntryWrite(key, e);
      }
    }

    /** SUBCOMMAND_RENAME; fails on an empty argument only. */
    method Rename(device: Key, description: string, writes: bool) returns (ok: bool)
      modifies this`db
      ensures ok == (device.text != "" && description != "")
      ensures !writes ==> db == old(db)
      ensures writes ==> View() == Renamed(old(View()), device, description)
      ensures old(AllReadable(db)) ==> AllReadable(db)
    {
      if device.text == "" || description == "" {
        return false;
      }
      var e := EntryRead(device);
      DecodedStorable(db);
      if e.Some? && writes {
        EntryWrite(device, e.value.(description := Some(description), userSetDescription := true));
      }
      return true;
    }

    /** SUBCOMMAND_DELETE */
    method Delete(names: seq<Key>)
      modifies this`db
      ensures View() == Deleted(old(View()), names)
      ensures old(AllReadable(db)) ==> AllReadable(db)
    {
      for i := 0 to |names|
        invariant db == old(db) - (set n | n in names[..i])
      {
        assert names[..i + 1] == names[..i] + [names[i]];
        db := db - {names[i]};
      }
      assert names[..|names|] == names;
    }

    ghost function Preferred(kind: Kind): array<nat> {
      if kind.Sink? then preferredSinks else preferredSources
    }

    /** update_highest_priority_device_indexes: refresh the cache of one kind.
        The cache says "none" exactly when no device of the kind is available,
        and otherwise holds an available one; it is the one of least priority
        if no priority is 0, the value that the loop takes for "none yet". */
    method Refresh(kind: Kind, devices: seq<Device>, ignore: Option<DeviceIndex>)
      requires Valid()
      modifies Preferred(kind)
      ensures forall r: nat :: r < NUM_ROLES ==> Refreshed(View(), devices, kind, ignore, r, Preferred(kind)[r])
    {
      var indexes := if kind.Sink? then preferredSinks else preferredSources;
      for i := 0 to NUM_ROLES
        invariant forall r: nat :: r < i ==> indexes[r] == PA_INVALID_INDEX
      {
        indexes[i] := PA_INVALID_INDEX;
      }
      var highest: seq<nat> := [0, 0, 0, 0, 0, 0, 0, 0, 0];
      var todo := db.Keys;
      while todo != {}
        invariant todo <= db.Keys && |highest| == NUM_ROLES
        invariant forall r: nat :: r < NUM_ROLES ==>
                    BestSoFar(View(), devices, kind, ignore, r, todo, highest[r], indexes[r])
      {
        var k :| k in todo;
        if Names(k, kind) {
          var e := EntryRead(k);
          if e.Some? {
            highest := Consider(kind, devices, ignore, todo, k, e.value.priority, highest, indexes);
          } else {
            SkipAll(View(), devices, kind, ignore, todo, k, highest, indexes[..]);
          }
        } else {
          SkipAll(View(), devices, kind, ignore, todo, k, highest, indexes[..]);
        }
        todo := todo - {k};
      }
      forall r: nat | r < NUM_ROLES
        ensures Refreshed(View(), devices, kind, ignore, r, indexes[r])
      {
        BestIsRefreshed(View(), devices, kind, ignore, r, highest[r], indexes[r]);
      }
    }

    /** The loop over the roles inside the refresh. */
    method Consider(kind: Kind, devices: seq<Device>, ignore: Option<DeviceIndex>, ghost todo: set<Key>,
                    k: Key, p: Priorities, highest: seq<nat>, indexes: array<nat>) returns (h: seq<nat>)
      requires indexes.Length == NUM_ROLES && |highest| == NUM_ROLES
      requires k in todo && k in Devices(View(), kind) && View()[k].priority == p
      requires forall r: nat :: r < NUM_ROLES ==>
                 BestSoFar(View(), devices, kind, ignore, r, todo, highest[r], indexes[r])
      modifies indexes
      ensures |h| == NUM_ROLES
      ensures forall r: nat :: r < NUM_ROLES ==>
                BestSoFar(View(), devices, kind, ignore, r, todo - {k}, h[r], indexes[r])
    {
      h := highest;
      for i := 0 to NUM_ROLES
        invariant |h| == NUM_ROLES
        invariant forall r: nat :: i <= r < NUM_ROLES ==> h[r] == highest[r] && indexes[r] == old(indexes[r])
        invariant forall r: nat :: r < i ==>
                    BestSoFar(View(), devices, kind, ignore, r, todo - {k}, h[r], indexes[r])
      {
        assert BestSoFar(View(), devices, kind, ignore, i, todo, h[i], indexes[i]);
        var hi, idx := ConsiderFor(i, View(), kind, devices, ignore, todo, k, p[i], h[i], indexes[i]);
        h := h[i := hi];
        indexes[i] := idx;
      }
    }

    /** The first loop of REORDER: every name must be a known device, all of
        one kind; each gets the place of its first mention. */
    method CollectNamed(names: seq<Key>) returns (ok: bool, h: map<Key, nat>)
      requires names != []
      ensures ok <==> Acceptable(View(), names)
      ensures ok ==> Numbered(h, Dedup(names))
    {
      h := map[];
      var kind := Sink;
      for i := 0 to |names|
        invariant i > 0 ==> kind == ReorderKind(names)
        invariant AcceptableUpTo(View(), names, i)
        invariant Numbered(h, Dedup(names[..i]))
      {
        var e := EntryRead(names[i]);
        if e.None? {
          return false, h;
        }
        if i == 0 {
          kind := ReorderKind(names);
        } else if !HasPrefix(names[i], kind) {
          return false, h;
        }
        NumberNext(h, names, i);
        if names[i] !in h {
          h := h[names[i] := |h|];
        }
      }
      assert names[..|names|] == names;
      return true, h;
    }

    /** The second loop of REORDER: while fewer than 256 devices are named, the
        other devices of the kind are added behind them, by their old priority. */
    method MergeOthers(named: map<Key, nat>, names: seq<Key>, role: nat) returns (h: map<Key, nat>)
      requires role < NUM_ROLES && names != [] && Numbered(named, Dedup(names))
      requires |Dedup(names)| < MAX_NAMED ==> KindReadable(db, ReorderKind(names))
      ensures h.Keys == Merged(View(), names)
      ensures KeyedBy(h, View(), role, Dedup(names))
    {
      var todo: set<Key>;
      h, todo := MergeLoop(named, ReorderKind(names), role, Dedup(names));
      assert View().Keys <= db.Keys;
      EndMerge(h, View(), names, todo);
    }

    method MergeLoop(named: map<Key, nat>, kind: Kind, role: nat, ghost d: seq<Key>)
      returns (h: map<Key, nat>, todo: set<Key>)
      requires (|d| < MAX_NAMED ==> KindReadable(db, kind)) && role < NUM_ROLES && NoDuplicates(d) && Numbered(named, d)
      ensures if |d| < MAX_NAMED then todo == {} else todo == db.Keys
      ensures MergedUpTo(h, d, KeysOfKind(View(), kind), todo)
      ensures KeyedBy(h, View(), role, d)
    {
      ghost var mine := KeysOfKind(View(), kind);
      var offset := |named|;
      h := named;
      todo := db.Keys;
      StartMerge(named, View(), d, mine, todo, role);
      while todo != {} && offset < MAX_NAMED
        invariant todo <= db.Keys && (offset >= MAX_NAMED ==> todo == db.Keys)
        invariant MergedUpTo(h, d, mine, todo)
        invariant KeyedBy(h, View(), role, d)
      {
        var k :| k in todo;
        h := MergeOne(h, kind, role, d, todo, k, offset);
        todo := todo - {k};
      }
    }

    method MergeOne(h: map<Key, nat>, kind: Kind, role: nat, ghost d: seq<Key>, ghost todo: set<Key>,
                    k: Key, offset: nat) returns (g: map<Key, nat>)
      requires KindReadable(db, kind) && role < NUM_ROLES && offset == |d| && k in todo && k in db
      requires MergedUpTo(h, d, KeysOfKind(View(), kind), todo)
      requires KeyedBy(h, View(), role, d)
      ensures MergedUpTo(g, d, KeysOfKind(View(), kind), todo - {k})
      ensures KeyedBy(g, View(), role, d)
    {
      if HasPrefix(k, kind) && k !in h {
        var e := EntryRead(k);
        MergeAdds(h, View(), d, KeysOfKind(View(), kind), todo, role, k);
        return h[k := Wrap32(offset + e.value.priority[role])];
      } else {
        MergeSkips(h, d, KeysOfKind(View(), kind), todo, k);
        return h;
      }
    }

    /** The last loop of REORDER: number the sorted devices from 1, writing
        only the entries whose number changes. */
    method RenumberAll(role: nat, order: seq<Key>) returns (changed: bool)
      requires role < NUM_ROLES && NoDuplicates(order)
      requires forall k :: k in order ==> k in View()
      modifies this`db
      ensures old(AllReadable(db)) ==> AllReadable(db)
      ensures Renumbered(old(View()), View(), role, order)
      ensures changed <==> View() != old(View())
    {
      changed := false;
      var idx := 1;
      ghost var es := View();
      for i := 0 to |order|
        invariant idx == Wrap32(i + 1) && (old(AllReadable(db)) ==> AllReadable(db))
        invariant RenumberedUpTo(es, View(), role, order, i)
        invariant changed <==> View() != es
      {
        changed, idx := RenumberOne(role, order, i, idx, changed, es);
      }
    }

    method RenumberOne(role: nat, order: seq<Key>, i: nat, idx: nat, changedSoFar: bool, ghost es: Entries)
      returns (changed: bool, next: nat)
      requires role < NUM_ROLES && NoDuplicates(order) && i < |order| && idx == Wrap32(i + 1)
      requires RenumberedUpTo(es, View(), role, order, i) && order[i] in es
      requires changedSoFar <==> View() != es
      modifies this`db
      ensures next == Wrap32(i + 2) && (old(AllReadable(db)) ==> AllReadable(db))
      ensures RenumberedUpTo(es, View(), role, order, i + 1)
      ensures changed <==> View() != es
    {
      changed := changedSoFar;
      var e := EntryRead(order[i]);
      RenumberNext(es, View(), role, order, i);
      DecodedStorable(db);
      if e.value.priority[role] != idx {
        var priority: Priorities := e.value.priority[role := idx];
        EntryWrite(order[i], e.value.(priority := priority));
        changed := true;
      }
      next := Following(i + 1, idx);
    }

    /** The part of SUBCOMMAND_REORDER that works on the database. */
    method ReorderDatabase(role: nat, names: seq<Key>) returns (ok: bool, changed: bool)
      requires role < NUM_ROLES && names != [] && MergeReadable(db, names)
      modifies this`db
      ensures old(AllReadable(db)) ==> AllReadable(db)
      ensures ok <==> Acceptable(old(View()), names)
      ensures !ok ==> db == old(db) && !changed
      ensures ok ==> Reordered(old(View()), role, names, View())
      ensures changed <==> View() != old(View())
    {
      var h: map<Key, nat>;
      ok, h := CollectNamed(names);
      if !ok {
        return false, false;
      }
      h := MergeOthers(h, names, role);
      var order := SortRanks(h);
      OrderIsSorted(h, View(), role, names, order);
      SortedIsKnown(View(), role, names, order);
      changed := RenumberAll(role, order);
    }

    /** Any command of a run, accepted or refused. */
    method Execute(c: Command, writes: bool)
      requires c.Register? ==> c.name != ""
      requires c.Reorder? ==> MergeReadable(db, c.request)
      modifies this`db
      ensures Step(old(View()), c, View()) && (old(AllReadable(db)) ==> AllReadable(db))
    {
      if c.Register? {
        Register(c.kind, Device(0, c.name, true, false, 0, c.description, c.icon), writes);
      } else if c.Rename? {
        var _ := Rename(c.device, c.newDescription, writes);
      } else if c.Delete? {
        Delete(c.names);
      } else if c.role < NUM_ROLES && c.request != [] {
        var _, _ := ReorderDatabase(c.role, c.request);
      }
    }

    /** SUBCOMMAND_REORDER. An unreadable value under a key of the kind would
        make the merge loop keep a freed record, hence the precondition; in a run
        every value is readable. */
    method Reorder(role: string, names: seq<Key>, sinks: seq<Device>, sources: seq<Device>) returns (ok: bool)
      requires Valid() && MergeReadable(db, names)
      modifies this`db, preferredSinks, preferredSources
      ensures old(AllReadable(db)) ==> AllReadable(db)
      ensures ok <==> role in ROLE_NAMES && Acceptable(old(View()), names)
      ensures !ok ==> db == old(db)
      ensures ok ==> exists r: nat :: r < NUM_ROLES && ROLE_NAMES[r] == role && Reordered(old(View()), r, names, View())
      ensures ok && doRouting && View() != old(View()) ==>
                var kind := ReorderKind(names);
                forall r: nat :: r < NUM_ROLES ==>
                  Refreshed(View(), if kind.Sink? then sinks else sources, kind, None, r, Preferred(kind)[r])
      ensures !(ok && doRouting && View() != old(View()) && ReorderKind(names).Sink?) ==>
                preferredSinks[..] == old(preferredSinks[..])
      ensures !(ok && doRouting && View() != old(View()) && ReorderKind(names).Source?) ==>
                preferredSources[..] == old(preferredSources[..])
    {
      if names == [] {
        return false;
      }
      var r := GetRoleIndex(role);
      if r.None? {
        return false;
      }
      var accepted, changed := ReorderDatabase(r.value, names);
      if !accepted {
        return false;
      }
      if changed && doRouting {
        if ReorderKind(names).Sink? {
          Refresh(Sink, sinks, None);
        } else {
          Refresh(Source, sources, None);
        }
      }
      return true;
    }

    /** Register the devices of one kind at start-up: in descending order of
        their drivers' priorities when there are not too many of them. */
    method RegisterAll(kind: Kind, devices: seq<Device>, sorted: bool) returns (ghost order: seq<Device>)
      requires forall i, j :: 0 <= i < j < |devices| ==> devices[i].index != devices[j].index
      modifies this`db
      ensures SameDeviceList(devices, order)
      ensures sorted ==> ByPriority(order)
      ensures View() == RegisteredAll(old(View()), kind, order)
      ensures old(AllReadable(db)) ==> AllReadable(db)
    {
      var list := devices;
      if sorted {
        list := SortDevices(devices);
      }
      order := list;
      for i := 0 to |list|
        invariant View() == RegisteredAll(old(View()), kind, list[..i])
        invariant old(AllReadable(db)) ==> AllReadable(db)
      {
        Register(kind, list[i], true);
        assert list[..i + 1][..i] == list[..i];
      }
      assert list[..|list|] == list;
    }

    /** The registration at the end of pa__init: with fewer than 128 devices of
        each kind, unknown ones are numbered by the priorities of their drivers.
        `n` bounds the numbers in use before. */
    method Startup(sinks: seq<Device>, sources: seq<Device>, ghost n: nat)
      returns (ghost sinkOrder: seq<Device>, ghost sourceOrder: seq<Device>)
      requires forall i, j :: 0 <= i < j < |sinks| ==> sinks[i].index != sinks[j].index
      requires forall i, j :: 0 <= i < j < |sources| ==> sources[i].index != sources[j].index
      modifies this`db
      ensures View() == RegisteredAll(RegisteredAll(old(View()), Sink, sinkOrder), Source, sourceOrder)
      ensures SameDeviceList(sinks, sinkOrder) && SameDeviceList(sources, sourceOrder)
      ensures |sinks| < 128 && |sources| < 128 ==> ByPriority(sinkOrder) && ByPriority(sourceOrder)
      ensures
        && |sinks| < 128 && |sources| < 128 && WellNamed(sinks) && WellNamed(sources)
        && Invariant(old(View())) && BoundedBy(old(View()), n) && n + |sinks| + |sources| < TWO_TO_THE_32 ==>
          && NumberedByPriority(old(View()), View(), Sink, sinks)
          && NumberedByPriority(old(View()), View(), Source, sources)
      ensures old(AllReadable(db)) ==> AllReadable(db)
    {
      ghost var es := View();
      var total := if |sinks| > |sources| then |sinks| else |sources|;
      sinkOrder := RegisterAll(Sink, sinks, 0 < total < 128);
      sourceOrder := RegisterAll(Source, sources, 0 < total < 128);
      if |sinks| < 128 && |sources| < 128 && WellNamed(sinks) && WellNamed(sources)
         && Invariant(es) && BoundedBy(es, n) && n + |sinks| + |sources| < TWO_TO_THE_32 {
        StartupByPriority(es, sinkOrder, sourceOrder, n);
      }
    }
  }

  /** The body of that loop, for one role. */
  method ConsiderFor(role: nat, ghost es: Entries, kind: Kind, devices: seq<Device>, ignore: Option<DeviceIndex>,
                     ghost todo: set<Key>, k: Key, p: u32, highest: nat, index: nat) returns (h: nat, idx: nat)
    requires role < NUM_ROLES && k in todo && k in Devices(es, kind) && Prio(es, k, role) == p
    requires BestSoFar(es, devices, kind, ignore, role, todo, highest, index)
    ensures BestSoFar(es, devices, kind, ignore, role, todo - {k}, h, idx)
  {
    h, idx := highest, index;
    var found: Option<DeviceIndex> := None;
    if highest == 0 || p < highest {
      found := FindDevice(devices, k.text[|Prefix(kind)|..], ignore);
    }
    if found.Some? {
      TakeBest(es, devices, kind, ignore, role, todo, k, highest, index);
      h, idx := p, found.value;
    } else {
      KeepBest(es, devices, kind, ignore, role, todo, k, highest, index);
    }
  }
}
