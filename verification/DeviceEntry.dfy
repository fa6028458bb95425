/** The database entry of one device: its printer, its parser, and the fact
    that the parser accepts exactly what the printer writes. */
module DeviceEntry {
  import opened Common
  import opened Tagstruct

  const NUM_ROLES := 9
  const ENTRY_VERSION := 1

  type Priorities = p: seq<u32> | |p| == NUM_ROLES witness [0, 0, 0, 0, 0, 0, 0, 0, 0]

  datatype Entry = Entry(
    version: u8,
    description: Option<string>,
    userSetDescription: bool,
    icon: Option<string>,
    priority: Priorities)

  /** The printed form of an entry. */
  ghost function Encode(e: Entry): (data: seq<Tag>)
    ensures |data| == 4 + NUM_ROLES
  {
    [U8(e.version), Str(e.description), Bool(e.userSetDescription), Str(e.icon)]
    + seq(NUM_ROLES, (i: int) requires 0 <= i < NUM_ROLES => U32(e.priority[i]))
  }

  /** The entries that survive being written: a known version, and a
      description wherever the user is said to have set one. */
  ghost predicate Storable(e: Entry) {
    && e.version <= ENTRY_VERSION
    && (e.userSetDescription ==> e.description.Some? && e.description.value != "")
  }

  /** `data` is the printed form of a storable entry. */
  ghost predicate Readable(data: seq<Tag>) {
    && |data| == 4 + NUM_ROLES
    && data[0].U8? && data[0].byte <= ENTRY_VERSION
    && data[1].Str? && data[2].Bool? && data[3].Str?
    && (data[2].flag ==> data[1].str.Some? && data[1].str.value != "")
    && forall i :: 4 <= i < |data| ==> data[i].U32?
  }

  ghost function Decode(data: seq<Tag>): (r: Option<Entry>)
    ensures r.Some? <==> Readable(data)
    ensures r.Some? ==> Storable(r.value)
  {
    if Readable(data) then
      Some(Entry(data[0].byte, data[1].str, data[2].flag, data[3].str,
                 seq(NUM_ROLES, (i: int) requires 0 <= i < NUM_ROLES => data[4 + i].word)))
    else
      None
  }

  /** Decoding is the inverse of encoding, on exactly the storable entries. */
  lemma DecodeIff(data: seq<Tag>, e: Entry)
    ensures Decode(data) == Some(e) <==> Storable(e) && data == Encode(e)
  {
    if Decode(data) == Some(e) {
      forall i | 0 <= i < |data|
        ensures data[i] == Encode(e)[i]
      {
        if i >= 4 {
          assert e.priority[i - 4] == data[4 + (i - 4)].word;
        }
      }
      assert data == Encode(e);
    }
    if Storable(e) && data == Encode(e) {
      assert forall i :: 0 <= i < NUM_ROLES ==> data[4 + i] == U32(e.priority[i]);
      assert Decode(data).value.priority == e.priority;
    }
  }

  /** Where the fields lie: version, description, whether the user chose it, icon, and
      the priorities of the nine roles. */
  lemma EncodedLayout(e: Entry)
    ensures var t := Encode(e);
            && |t| == 13 && t[0] == U8(e.version) && t[1] == Str(e.description)
            && t[2] == Bool(e.userSetDescription) && t[3] == Str(e.icon)
            && forall i :: 0 <= i < 9 ==> t[4 + i] == U32(e.priority[i])
  {
  }

  /** entry_write: print an entry. */
  method Write(e: Entry) returns (t: seq<Tag>)
    ensures t == Encode(e)
    ensures |t| == 13 && t[0] == U8(e.version) && t[1] == Str(e.description)
    ensures t[2] == Bool(e.userSetDescription) && t[3] == Str(e.icon)
    ensures forall i :: 0 <= i < 9 ==> t[4 + i] == U32(e.priority[i])
  {
    EncodedLayout(e);
    t := [U8(e.version)];
    t := t + [Str(e.description)];
    t := t + [Bool(e.userSetDescription)];
    t := t + [Str(e.icon)];
    for i := 0 to NUM_ROLES
      invariant |t| == 4 + i
      invariant t[..4] == Encode(e)[..4]
      invariant forall j :: 4 <= j < |t| ==> t[j] == Encode(e)[j]
    {
      t := t + [U32(e.priority[i])];
    }
    assert forall j :: 0 <= j < 4 ==> t[j] == t[..4][j] == Encode(e)[..4][j];
  }

  /** entry_read: parse an entry, rejecting anything that is not one. */
  method Read(data: seq<Tag>) returns (r: Option<Entry>)
    ensures r == Decode(data)
  {
    var t := new Reader(data);

    var version := t.GetU8();
    if version.None? || version.value > ENTRY_VERSION {
      return None;
    }
    var description := t.GetString();
    if description.None? {
      return None;
    }
    var userSet := t.GetBoolean();
    if userSet.None? {
      return None;
    }
    var icon := t.GetString();
    if icon.None? {
      return None;
    }

    if userSet.value && description.value.None? {
      return None;
    }
    if userSet.value && description.value.value == "" {
      return None;
    }

    var priority: seq<u32> := [];
    for i := 0 to NUM_ROLES
      invariant t.Valid() && t.data == data && t.pos == 4 + i
      invariant |priority| == i
      invariant forall j :: 4 <= j < 4 + i ==> data[j].U32? && priority[j - 4] == data[j].word
    {
      var p := t.GetU32();
      if p.None? {
        return None;
      }
      priority := priority + [p.value];
    }
    if t.pos != |t.data| {
      return None;
    }

    r := Some(Entry(version.value, description.value, userSet.value, icon.value, priority));
    forall i | 0 <= i < NUM_ROLES
      ensures r.value.priority[i] == Decode(data).value.priority[i]
    {
      assert data[4 + i].U32?;
    }
    assert r.value.priority == Decode(data).value.priority;
  }
}
