/** What the commands of module-device-manager.c do to the priority database,
    as relations between the entries before and after, and what every run of
    them keeps. The class in DeviceManager.dfy, which works on the encoded
    database, is proved against these relations. */
module DeviceDatabase {
  import opened Common
  import opened Tagstruct
  import opened DeviceEntry

  /** The readable entries of the database, by key. */
  type Entries = map<Key, Entry>

  /** A database key: `sink:` or `source:` and the name of the device. */
  datatype Key = Key(text: string)

  datatype Kind = Sink | Source

  const PA_INVALID_INDEX := TWO_TO_THE_32 - 1

  /** The merge loop of REORDER only runs while fewer devices than this are named. */
  const MAX_NAMED := 256

  function Prefix(kind: Kind): string {
    match kind
    case Sink => "sink:"
    case Source => "source:"
  }

  /** `strncmp(prefix, key, strlen(prefix)) == 0` */
  predicate HasPrefix(key: Key, kind: Kind) {
    Prefix(kind) <= key.text
  }

  /** As above, with a device name after the prefix. */
  predicate Names(key: Key, kind: Kind) {
    Prefix(kind) < key.text
  }

  const ROLE_NAMES := ["none", "video", "music", "game", "event", "phone", "animation", "production", "a11y"]

  // ----- Looking things up -----

  /** The priority of a device for a role; 0, which no device has, when there is no entry. */
  ghost function Prio(es: Entries, key: Key, role: nat): u32
    requires role < NUM_ROLES
  {
    if key in es then es[key].priority[role] else 0
  }

  ghost function Devices(es: Entries, kind: Kind): set<Key> {
    set k | k in es && Names(k, kind)
  }

  /** The greatest element of a set of naturals, 0 when it is empty. */
  ghost function MaxOf(s: set<nat>): (m: nat)
    ensures forall x :: x in s ==> x <= m
    ensures m in s || (s == {} && m == 0)
  {
    if s == {} then 0 else
      var x :| x in s;
      var rest := MaxOf(s - {x});
      assert s == (s - {x}) + {x};
      if x > rest then x else rest
  }

  ghost function MaxPriority(es: Entries, kind: Kind, role: nat): nat
    requires role < NUM_ROLES
  {
    MaxOf(set k | k in Devices(es, kind) :: Prio(es, k, role))
  }

  // ----- The commands -----

  ghost function NewPriorities(es: Entries, kind: Kind): Priorities {
    seq(NUM_ROLES, (r: int) requires 0 <= r < NUM_ROLES => Wrap32(MaxPriority(es, kind, r) + 1))
  }

  /** A device appears or changes: a known one keeps its priorities and, if
      the user chose it, its description; a new one goes behind all others. */
  ghost function Registered(es: Entries, kind: Kind, name: string,
                            description: Option<string>, icon: Option<string>): Entries
  {
    var key := Key(Prefix(kind) + name);
    es[key := RegisteredEntry(es, kind, key, description, icon)]
  }

  ghost function RegisteredEntry(es: Entries, kind: Kind, key: Key,
                                 description: Option<string>, icon: Option<string>): Entry
  {
    if key in es then
      es[key].(description := if es[key].userSetDescription then es[key].description else description, icon := icon)
    else
      Entry(ENTRY_VERSION, description, false, icon, NewPriorities(es, kind))
  }

  ghost function Renamed(es: Entries, device: Key, description: string): Entries {
    if device in es && device.text != "" && description != "" then
      es[device := es[device].(description := Some(description), userSetDescription := true)]
    else
      es
  }

  ghost function Deleted(es: Entries, names: seq<Key>): Entries {
    es - (set n | n in names)
  }

  /** The names in the order in which they are first mentioned. */
  ghost function Dedup(names: seq<Key>): (d: seq<Key>)
    ensures NoDuplicates(d)
    ensures forall n :: n in d <==> n in names
  {
    if names == [] then [] else
      var last := names[|names| - 1];
      var d := Dedup(names[..|names| - 1]);
      assert names == names[..|names| - 1] + [last];
      if last in d then d else d + [last]
  }

  ghost predicate NoDuplicates(s: seq<Key>) {
    forall i, j :: 0 <= i < j < |s| ==> s[i] != s[j]
  }

  ghost function IndexOf(s: seq<Key>, x: Key): (i: nat)
    requires x in s
    ensures i < |s| && s[i] == x
  {
    if s[0] == x then 0 else 1 + IndexOf(s[1..], x)
  }

  /** The first name decides whether sinks or sources are reordered. */
  function ReorderKind(names: seq<Key>): Kind
    requires names != []
  {
    if HasPrefix(names[0], Sink) then Sink else Source
  }

  /** REORDER accepts a list of known devices of one kind. */
  ghost predicate Acceptable(es: Entries, names: seq<Key>) {
    && names != []
    && forall i :: 0 <= i < |names| ==>
      && names[i] in es
      && (i > 0 ==> HasPrefix(names[i], ReorderKind(names)))
  }

  /** The devices that REORDER renumbers: the named ones and, unless too many
      are named, every other device of the kind. */
  ghost function Merged(es: Entries, names: seq<Key>): set<Key>
    requires names != []
  {
    (set n | n in names)
    + (if |Dedup(names)| < MAX_NAMED then set k | k in es && HasPrefix(k, ReorderKind(names)) else {})
  }

  /** The number by which REORDER sorts: the place in the request, or the old
      priority moved behind all requested places, in 32-bit arithmetic. */
  ghost function SortKey(es: Entries, role: nat, d: seq<Key>, key: Key): nat
    requires role < NUM_ROLES
  {
    if key in d then IndexOf(d, key) else Wrap32(|d| + Prio(es, key, role))
  }

  ghost predicate SortedFor(es: Entries, role: nat, names: seq<Key>, order: seq<Key>)
    requires role < NUM_ROLES && names != []
  {
    && NoDuplicates(order)
    && (forall k :: k in order <==> k in Merged(es, names))
    && forall i, j :: 0 <= i < j < |order| ==>
      SortKey(es, role, Dedup(names), order[i]) <= SortKey(es, role, Dedup(names), order[j])
  }

  /** `after` is `before` with the devices of `order` numbered from 1 for one role. */
  ghost predicate Renumbered(before: Entries, after: Entries, role: nat, order: seq<Key>)
    requires role < NUM_ROLES
  {
    && after.Keys == before.Keys
    && (forall k :: k in before && k !in order ==> after[k] == before[k])
    && forall i :: 0 <= i < |order| ==> RenumberedAt(before, after, role, order[i], i)
  }

  ghost predicate RenumberedAt(before: Entries, after: Entries, role: nat, key: Key, i: nat)
    requires role < NUM_ROLES
  {
    && key in before && key in after
    && after[key] == WithPriority(before[key], role, i + 1)
  }

  ghost function WithPriority(e: Entry, role: nat, n: nat): Entry
    requires role < NUM_ROLES
  {
    e.(priority := e.priority[role := Wrap32(n)])
  }

  /** REORDER on an acceptable list. */
  ghost predicate Reordered(es: Entries, role: nat, names: seq<Key>, after: Entries)
    requires role < NUM_ROLES && names != []
  {
    exists order :: SortedFor(es, role, names, order) && Renumbered(es, after, role, order)
  }

  // ----- What the database looks like after every command -----

  /** Every key names a device and every entry can be read back once written. */
  ghost predicate Sound(es: Entries) {
    forall k :: k in es ==> (Names(k, Sink) || Names(k, Source)) && Storable(es[k])
  }

  /** The devices of a kind have pairwise distinct positive priorities. */
  ghost predicate Ranked(es: Entries, kind: Kind, role: nat)
    requires role < NUM_ROLES
  {
    && (forall k :: k in Devices(es, kind) ==> Prio(es, k, role) >= 1)
    && forall a, b :: a in Devices(es, kind) && b in Devices(es, kind) && a != b ==>
         Prio(es, a, role) != Prio(es, b, role)
  }

  ghost predicate Invariant(es: Entries) {
    && Sound(es)
    && forall kind: Kind, role: nat :: role < NUM_ROLES ==> Ranked(es, kind, role)
  }

  /** No priority exceeds `n`, and there are at most `n` entries. */
  ghost predicate BoundedBy(es: Entries, n: nat) {
    && |es| <= n
    && forall k, role: nat :: k in es && role < NUM_ROLES ==> Prio(es, k, role) <= n
  }

  lemma KindsDisjoint(key: Key)
    ensures !(HasPrefix(key, Sink) && HasPrefix(key, Source))
  {
    assert HasPrefix(key, Sink) ==> key.text[1] == Prefix(Sink)[1];
    assert HasPrefix(key, Source) ==> key.text[1] == Prefix(Source)[1];
    assert Prefix(Sink)[1] == 'i' && Prefix(Source)[1] == 'o';
  }

  lemma DevicesAfterUpdate(es: Entries, kind: Kind, key: Key, e: Entry, kd: Kind)
    requires Names(key, kind)
    ensures Devices(es[key := e], kd) == if kd == kind then Devices(es, kd) + {key} else Devices(es, kd)
  {
    KindsDisjoint(key);
  }

  lemma MaxPriorityBounds(es: Entries, kind: Kind, role: nat, n: nat)
    requires role < NUM_ROLES && BoundedBy(es, n)
    ensures MaxPriority(es, kind, role) <= n
    ensures forall k :: k in Devices(es, kind) ==> Prio(es, k, role) <= MaxPriority(es, kind, role)
  {
    var s := set k | k in Devices(es, kind) :: Prio(es, k, role);
    forall k | k in Devices(es, kind)
      ensures Prio(es, k, role) <= MaxPriority(es, kind, role)
    {
      assert Prio(es, k, role) in s;
    }
  }

  lemma RegisterKeepsRank(es: Entries, kind: Kind, key: Key, e: Entry, n: nat, kd: Kind, role: nat)
    requires role < NUM_ROLES && Ranked(es, kd, role) && BoundedBy(es, n) && n + 1 < TWO_TO_THE_32
    requires Names(key, kind)
    requires e.priority[role] == if key in es then Prio(es, key, role) else MaxPriority(es, kind, role) + 1
    ensures Ranked(es[key := e], kd, role)
    ensures e.priority[role] <= n + 1
  {
    var after := es[key := e];
    MaxPriorityBounds(es, kind, role, n);
    DevicesAfterUpdate(es, kind, key, e, kd);
    forall k | k in Devices(after, kd) && k != key
      ensures k in Devices(es, kd) && Prio(after, k, role) == Prio(es, k, role)
    {
    }
  }

  lemma RegisterKeepsBound(es: Entries, kind: Kind, key: Key, e: Entry, n: nat)
    requires BoundedBy(es, n)
    requires forall role: nat :: role < NUM_ROLES ==> e.priority[role] <= n + 1
    ensures BoundedBy(es[key := e], n + 1)
  {
    var after := es[key := e];
    assert after.Keys == es.Keys + {key};
    forall k, role: nat | k in after && role < NUM_ROLES
      ensures Prio(after, k, role) <= n + 1
    {
      assert k != key ==> Prio(es, k, role) <= n;
    }
  }

  lemma RegisteredPriority(es: Entries, kind: Kind, key: Key, description: Option<string>, icon: Option<string>,
      n: nat, role: nat)
    requires BoundedBy(es, n) && n + 1 < TWO_TO_THE_32 && role < NUM_ROLES
    ensures RegisteredEntry(es, kind, key, description, icon).priority[role]
         == if key in es then Prio(es, key, role) else MaxPriority(es, kind, role) + 1
    ensures RegisteredEntry(es, kind, key, description, icon).priority[role] <= n + 1
  {
  }

  lemma RegisterKeepsSound(es: Entries, kind: Kind, key: Key, description: Option<string>, icon: Option<string>)
    requires Sound(es) && Names(key, kind)
    ensures Sound(es[key := RegisteredEntry(es, kind, key, description, icon)])
  {
  }

  lemma RegisterKeepsAt(es: Entries, kind: Kind, key: Key, description: Option<string>, icon: Option<string>, n: nat)
    requires Invariant(es) && BoundedBy(es, n) && n + 1 < TWO_TO_THE_32 && Names(key, kind)
    ensures Invariant(es[key := RegisteredEntry(es, kind, key, description, icon)])
    ensures BoundedBy(es[key := RegisteredEntry(es, kind, key, description, icon)], n + 1)
  {
    var e := RegisteredEntry(es, kind, key, description, icon);
    RegisterKeepsSound(es, kind, key, description, icon);
    var after := es[key := e];
    forall kd: Kind, role: nat | role < NUM_ROLES
      ensures Ranked(after, kd, role)
    {
      RegisteredPriority(es, kind, key, description, icon, n, role);
      RegisterKeepsRank(es, kind, key, e, n, kd, role);
    }
    forall role: nat | role < NUM_ROLES
      ensures e.priority[role] <= n + 1
    {
      RegisteredPriority(es, kind, key, description, icon, n, role);
    }
    RegisterKeepsBound(es, kind, key, e, n);
  }

  /** A device that appears keeps the database in order, as long as the
      greatest priority is not the greatest 32-bit number. */
  lemma RegisterKeeps(es: Entries, kind: Kind, name: string, description: Option<string>, icon: Option<string>, n: nat)
    requires Invariant(es) && BoundedBy(es, n) && n + 1 < TWO_TO_THE_32 && name != ""
    ensures Invariant(Registered(es, kind, name, description, icon))
    ensures BoundedBy(Registered(es, kind, name, description, icon), n + 1)
  {
    RegisterKeepsAt(es, kind, Key(Prefix(kind) + name), description, icon, n);
  }

  lemma RenameKeeps(es: Entries, device: Key, description: string, n: nat)
    requires Invariant(es) && BoundedBy(es, n)
    ensures Invariant(Renamed(es, device, description)) && BoundedBy(Renamed(es, device, description), n)
  {
    var after := Renamed(es, device, description);
    assert after.Keys == es.Keys;
    assert forall k, role: nat | role < NUM_ROLES :: Prio(after, k, role) == Prio(es, k, role);
    forall kind: Kind, role: nat | role < NUM_ROLES
      ensures Ranked(after, kind, role)
    {
      assert Ranked(es, kind, role);
      assert Devices(after, kind) == Devices(es, kind);
    }
  }

  lemma DeleteKeeps(es: Entries, names: seq<Key>, n: nat)
    requires Invariant(es) && BoundedBy(es, n)
    ensures Invariant(Deleted(es, names)) && BoundedBy(Deleted(es, names), n)
  {
    var after := Deleted(es, names);
    assert forall k, role: nat | role < NUM_ROLES && k in after :: Prio(after, k, role) == Prio(es, k, role);
    forall kind: Kind, role: nat | role < NUM_ROLES
      ensures Ranked(after, kind, role)
    {
      assert Ranked(es, kind, role);
      assert Devices(after, kind) <= Devices(es, kind);
    }
    SubsetSize(after.Keys, es.Keys);
  }

  /** What registering writes: the icon always; the description unless the user chose
      the one there is; and a new device is not marked as renamed. */
  lemma RegisterWrites(es: Entries, kind: Kind, name: string, description: Option<string>, icon: Option<string>)
    ensures var key, after := Key(Prefix(kind) + name), Registered(es, kind, name, description, icon);
            && after.Keys == es.Keys + {key} && after[key].icon == icon
            && (forall k :: k in es && k != key ==> after[k] == es[k])
            && (key in es && es[key].userSetDescription ==> after[key] == es[key].(icon := icon))
            && (key in es && !es[key].userSetDescription ==>
                  after[key] == es[key].(icon := icon, description := description))
            && (key !in es ==> after[key].description == description && !after[key].userSetDescription)
  {
  }

  /** A renamed device has the new description however often it is registered after
      that, until it is deleted; then it starts without. */
  lemma RenameSurvives(es: Entries, kind: Kind, name: string, chosen: string, description: Option<string>,
      icon: Option<string>)
    requires chosen != "" && Key(Prefix(kind) + name) in es
    ensures var key := Key(Prefix(kind) + name);
            var after := Registered(Renamed(es, key, chosen), kind, name, description, icon);
            && after[key].description == Some(chosen) && after[key].userSetDescription
            && after[key].priority == es[key].priority
    ensures var key := Key(Prefix(kind) + name);
            var after := Registered(Deleted(Renamed(es, key, chosen), [key]), kind, name, description, icon);
            after[key].description == description && !after[key].userSetDescription
  {
    assert Key(Prefix(kind) + name).text == Prefix(kind) + name;
  }

  /** Renaming touches one known device, and only its description and its mark. */
  lemma RenameWrites(es: Entries, device: Key, description: string)
    ensures var after := Renamed(es, device, description);
            && after.Keys == es.Keys && (forall k :: k in es && k != device ==> after[k] == es[k])
            && (device in es ==> after[device] == es[device].(
                  description := after[device].description, userSetDescription := after[device].userSetDescription))
            && (device in es && device.text != "" && description != "" ==>
                  after[device].description == Some(description) && after[device].userSetDescription)
            && (device.text == "" || description == "" ==> after == es)
  {
  }

  /** Deleting removes the named devices and touches no other. */
  lemma DeleteWrites(es: Entries, names: seq<Key>)
    ensures var after := Deleted(es, names);
            && (forall k :: k in after <==> k in es && k !in names)
            && (forall k :: k in after ==> after[k] == es[k])
  {
  }

  lemma SubsetSize<T>(a: set<T>, b: set<T>)
    requires a <= b
    ensures |a| <= |b|
  {
    assert b == a + (b - a);
  }

  lemma {:induction false} NoDuplicatesSize(s: seq<Key>)
    requires NoDuplicates(s)
    ensures |(set x | x in s)| == |s|
  {
    if s != [] {
      var init := s[..|s| - 1];
      NoDuplicatesSize(init);
      assert (set x | x in s) == (set x | x in init) + {s[|s| - 1]};
    }
  }
}
