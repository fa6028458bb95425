/** Which device a role prefers: the available one with the least priority. */
module DevicePreference {
  import opened Common
  import opened Tagstruct
  import opened DeviceEntry
  import opened DeviceDatabase
  import opened DeviceReorder
  import opened DeviceSorts

  type DeviceIndex = n: nat | n < PA_INVALID_INDEX

  /** A sink or source of the core, as far as this module looks at it. */
  datatype Device = Device(
    index: DeviceIndex,
    name: string,
    linked: bool,
    monitor: bool,
    priority: s32,
    description: Option<string>,
    icon: Option<string>)

  /** The first linked device of that name, other than the ignored one. */
  ghost function FindLinked(devices: seq<Device>, name: string, ignore: Option<DeviceIndex>): Option<DeviceIndex> {
    if devices == [] then None
    else if ignore != Some(devices[0].index) && devices[0].linked && devices[0].name == name then Some(devices[0].index)
    else FindLinked(devices[1..], name, ignore)
  }

  /** The device is linked, has the name and is not the one to be ignored. */
  predicate Suits(d: Device, name: string, ignore: Option<DeviceIndex>) {
    d.linked && d.name == name && ignore != Some(d.index)
  }

  /** The first device of the list that suits. */
  predicate FirstSuiting(devices: seq<Device>, n: nat, name: string, ignore: Option<DeviceIndex>) {
    && n < |devices| && Suits(devices[n], name, ignore)
    && forall m :: 0 <= m < n ==> !Suits(devices[m], name, ignore)
  }

  /** The search finds the first device that suits, and nothing exactly when none does. */
  lemma {:induction false} FindLinkedIff(devices: seq<Device>, name: string, ignore: Option<DeviceIndex>)
    ensures FindLinked(devices, name, ignore).None? <==> forall d :: d in devices ==> !Suits(d, name, ignore)
    ensures forall n: nat :: FirstSuiting(devices, n, name, ignore) ==>
              FindLinked(devices, name, ignore) == Some(devices[n].index)
  {
    if devices != [] {
      FindLinkedIff(devices[1..], name, ignore);
      assert devices[0] in devices && devices == [devices[0]] + devices[1..];
      assert forall d :: d in devices ==> d == devices[0] || d in devices[1..];
      forall n: nat | FirstSuiting(devices, n, name, ignore)
        ensures FindLinked(devices, name, ignore) == Some(devices[n].index)
      {
        if n > 0 {
          assert !Suits(devices[0], name, ignore);
          assert forall m :: 0 <= m < n - 1 ==> devices[1..][m] == devices[m + 1];
          assert FirstSuiting(devices[1..], n - 1, name, ignore);
        }
      }
    }
  }

  lemma FoundSuits(devices: seq<Device>, name: string, ignore: Option<DeviceIndex>) returns (n: nat)
    requires FindLinked(devices, name, ignore).Some?
    ensures FirstSuiting(devices, n, name, ignore) && FindLinked(devices, name, ignore) == Some(devices[n].index)
  {
    FindLinkedIff(devices, name, ignore);
    n := 0;
    while !Suits(devices[n], name, ignore)
      invariant n < |devices| && forall m :: 0 <= m < n ==> !Suits(devices[m], name, ignore)
      decreases |devices| - n
    {
      n := n + 1;
    }
  }

  /** The index of the available device with that key, if there is one. */
  ghost function Available(devices: seq<Device>, kind: Kind, key: Key, ignore: Option<DeviceIndex>): Option<DeviceIndex>
    requires Names(key, kind)
  {
    FindLinked(devices, key.text[|Prefix(kind)|..], ignore)
  }

  ghost predicate Candidate(es: Entries, devices: seq<Device>, kind: Kind, ignore: Option<DeviceIndex>, key: Key) {
    key in Devices(es, kind) && Available(devices, kind, key, ignore).Some?
  }

  /** `best` is an available device that no other available device precedes. */
  ghost predicate IsBest(es: Entries, devices: seq<Device>, kind: Kind, ignore: Option<DeviceIndex>,
      role: nat, best: Key)
    requires role < NUM_ROLES
  {
    && Candidate(es, devices, kind, ignore, best)
    && forall k :: Candidate(es, devices, kind, ignore, k) ==> Prio(es, best, role) <= Prio(es, k, role)
  }

  /** `idx` is what the cache must hold for the role. */
  ghost predicate IsPreferred(es: Entries, devices: seq<Device>, kind: Kind, ignore: Option<DeviceIndex>,
      role: nat, idx: nat)
    requires role < NUM_ROLES
  {
    if idx == PA_INVALID_INDEX then
      forall k :: !Candidate(es, devices, kind, ignore, k)
    else
      exists best ::
        IsBest(es, devices, kind, ignore, role, best) && Available(devices, kind, best, ignore) == Some(idx)
  }

  // ----- The same, over the devices of the core -----

  ghost function KeyOf(kind: Kind, d: Device): Key {
    Key(Prefix(kind) + d.name)
  }

  /** A device of the core that is linked, known to the database and not to be ignored. */
  ghost predicate Routable(es: Entries, devices: seq<Device>, kind: Kind, ignore: Option<DeviceIndex>, d: Device) {
    d in devices && d.linked && ignore != Some(d.index) && KeyOf(kind, d) in Devices(es, kind)
  }

  /** The cached index is "none" exactly when no device is routable, and else that of
      a routable one. */
  ghost predicate CachesRoutable(es: Entries, devices: seq<Device>, kind: Kind, ignore: Option<DeviceIndex>, idx: nat) {
    && (idx == PA_INVALID_INDEX <==> forall d :: !Routable(es, devices, kind, ignore, d))
    && (idx != PA_INVALID_INDEX ==> exists d :: Routable(es, devices, kind, ignore, d) && d.index == idx)
  }

  /** The cached index is that of a routable device which none precedes. */
  ghost predicate CachesLeast(es: Entries, devices: seq<Device>, kind: Kind, ignore: Option<DeviceIndex>,
      role: nat, idx: nat)
    requires role < NUM_ROLES
  {
    exists d :: Routable(es, devices, kind, ignore, d) && d.index == idx
      && forall e :: Routable(es, devices, kind, ignore, e) ==>
           Prio(es, KeyOf(kind, d), role) <= Prio(es, KeyOf(kind, e), role)
  }

  lemma RoutableIsCandidate(es: Entries, devices: seq<Device>, kind: Kind, ignore: Option<DeviceIndex>, d: Device)
    requires Routable(es, devices, kind, ignore, d)
    ensures Candidate(es, devices, kind, ignore, KeyOf(kind, d))
  {
    assert KeyOf(kind, d).text[|Prefix(kind)|..] == d.name;
    FindLinkedIff(devices, d.name, ignore);
    assert Suits(d, d.name, ignore);
  }

  lemma CandidateIsRoutable(es: Entries, devices: seq<Device>, kind: Kind, ignore: Option<DeviceIndex>, key: Key)
    returns (d: Device)
    requires Candidate(es, devices, kind, ignore, key)
    ensures Routable(es, devices, kind, ignore, d) && KeyOf(kind, d) == key
    ensures Available(devices, kind, key, ignore) == Some(d.index)
  {
    var name := key.text[|Prefix(kind)|..];
    var n := FoundSuits(devices, name, ignore);
    d := devices[n];
    assert key.text == Prefix(kind) + name;
  }

  lemma PreferredIsRoutable(es: Entries, devices: seq<Device>, kind: Kind, ignore: Option<DeviceIndex>, idx: nat)
    requires idx == PA_INVALID_INDEX <==> forall k :: !Candidate(es, devices, kind, ignore, k)
    requires idx != PA_INVALID_INDEX ==>
      exists k :: Candidate(es, devices, kind, ignore, k) && Available(devices, kind, k, ignore) == Some(idx)
    ensures CachesRoutable(es, devices, kind, ignore, idx)
  {
    forall d | Routable(es, devices, kind, ignore, d)
      ensures idx != PA_INVALID_INDEX
    {
      RoutableIsCandidate(es, devices, kind, ignore, d);
    }
    if idx != PA_INVALID_INDEX {
      var k :| Candidate(es, devices, kind, ignore, k) && Available(devices, kind, k, ignore) == Some(idx);
      var d := CandidateIsRoutable(es, devices, kind, ignore, k);
    }
  }

  lemma PreferredIsLeast(es: Entries, devices: seq<Device>, kind: Kind, ignore: Option<DeviceIndex>,
      role: nat, idx: nat)
    requires role < NUM_ROLES && idx != PA_INVALID_INDEX && IsPreferred(es, devices, kind, ignore, role, idx)
    ensures CachesLeast(es, devices, kind, ignore, role, idx)
  {
    var best :| IsBest(es, devices, kind, ignore, role, best) && Available(devices, kind, best, ignore) == Some(idx);
    var d := CandidateIsRoutable(es, devices, kind, ignore, best);
    forall e | Routable(es, devices, kind, ignore, e)
      ensures Prio(es, KeyOf(kind, d), role) <= Prio(es, KeyOf(kind, e), role)
    {
      RoutableIsCandidate(es, devices, kind, ignore, e);
    }
  }

  /** With distinct priorities there is exactly one right value. */
  lemma PreferredUnique(es: Entries, devices: seq<Device>, kind: Kind, ignore: Option<DeviceIndex>,
      role: nat, i: nat, j: nat)
    requires role < NUM_ROLES && Ranked(es, kind, role)
    requires IsPreferred(es, devices, kind, ignore, role, i)
    requires IsPreferred(es, devices, kind, ignore, role, j)
    ensures i == j
  {
  }

  /** What REORDER is for: once the cache is refreshed, the role prefers the
      first available device of the request, in the order of first mention. */
  lemma ReorderDecidesPreference(es: Entries, role: nat, names: seq<Key>, after: Entries,
                                 devices: seq<Device>, ignore: Option<DeviceIndex>, idx: nat, i: nat)
    requires Sound(es) && role < NUM_ROLES && Acceptable(es, names) && NoWrap(es, role, names)
    requires |Dedup(names)| < MAX_NAMED && |es| < TWO_TO_THE_32
    requires Reordered(es, role, names, after)
    requires IsPreferred(after, devices, ReorderKind(names), ignore, role, idx)
    requires i < |Dedup(names)| && Candidate(es, devices, ReorderKind(names), ignore, Dedup(names)[i])
    requires forall j :: 0 <= j < i ==> !Candidate(es, devices, ReorderKind(names), ignore, Dedup(names)[j])
    ensures Available(devices, ReorderKind(names), Dedup(names)[i], ignore) == Some(idx)
  {
    var kind, d := ReorderKind(names), Dedup(names);
    ReorderOutcome(es, role, names, after);
    ReorderFrame(es, role, names, after);
    SameDevices(es, after, kind);
    assert Candidate(after, devices, kind, ignore, d[i]);
    assert idx != PA_INVALID_INDEX;
    var best :| IsBest(after, devices, kind, ignore, role, best) && Available(devices, kind, best, ignore) == Some(idx);
    assert Prio(after, best, role) <= Prio(after, d[i], role) == i + 1;
    assert best in d;
    var j := IndexOf(d, best);
    assert Prio(after, d[j], role) == j + 1;
    assert j == i;
  }
}
