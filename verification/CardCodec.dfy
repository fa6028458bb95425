/** The database entry of a card in module-card-restore.c: the printer, the
    parser for every version up to the current one, and their inverse relation. */
module CardCodec {
  import opened Common
  import opened Tagstruct

  const ENTRY_VERSION := 4

  datatype Name = Name(text: string)
  datatype PortInfo = PortInfo(offset: s64, profile: Option<string>)

  /** struct entry. */
  datatype Entry = Entry(
    profile: Option<string>,
    ports: map<Name, PortInfo>,
    preferredInput: Option<string>,
    preferredOutput: Option<string>)

  // ----- What lies in the database -----

  datatype Port = Port(name: Name, info: PortInfo)

  /** An entry as it is laid out: with a version, and the ports in some order. */
  datatype File = File(
    version: u8,
    profile: Option<string>,
    ports: seq<Port>,
    preferredInput: Option<string>,
    preferredOutput: Option<string>)

  predicate Named(ports: seq<Port>, name: Name) {
    exists i :: 0 <= i < |ports| && ports[i].name == name
  }

  predicate DistinctNames(ports: seq<Port>) {
    forall i, j :: 0 <= i < j < |ports| ==> ports[i].name != ports[j].name
  }

  /** What older versions do not have is absent: ports before 2, their profiles
      before 3, preferred ports before 4. */
  predicate WellFormed(f: File) {
    && f.version <= ENTRY_VERSION
    && |f.ports| < TWO_TO_THE_32 && DistinctNames(f.ports)
    && (f.version < 2 ==> f.ports == [])
    && (f.version < 3 ==> NoProfiles(f.ports))
    && (f.version < 4 ==> f.preferredInput == None == f.preferredOutput)
  }

  predicate NoProfiles(ports: seq<Port>) {
    forall i :: 0 <= i < |ports| ==> ports[i].info.profile == None
  }

  function PrintPort(version: u8, p: Port): seq<Tag> {
    if version >= 3 then [Str(Some(p.name.text)), S64(p.info.offset), Str(p.info.profile)]
    else [Str(Some(p.name.text)), S64(p.info.offset)]
  }

  function PrintPorts(version: u8, ports: seq<Port>): seq<Tag> {
    if ports == [] then [] else PrintPort(version, ports[0]) + PrintPorts(version, ports[1..])
  }

  function PrintList(version: u8, ports: seq<Port>): seq<Tag>
    requires |ports| < TWO_TO_THE_32
  {
    if version >= 2 then [U32(|ports|)] + PrintPorts(version, ports) else []
  }

  function PrintPreferred(f: File): seq<Tag> {
    if f.version >= 4 then [Str(f.preferredInput), Str(f.preferredOutput)] else []
  }

  function Print(f: File): seq<Tag>
    requires |f.ports| < TWO_TO_THE_32
  {
    [U8(f.version), Str(f.profile)] + (PrintList(f.version, f.ports) + PrintPreferred(f))
  }

  lemma {:induction false} ShortPortAt(version: u8, ports: seq<Port>, i: nat)
    requires version <= 2
    ensures |PrintPorts(version, ports)| == 2 * |ports|
    ensures i < |ports| ==>
      && PrintPorts(version, ports)[2 * i] == Str(Some(ports[i].name.text))
      && PrintPorts(version, ports)[2 * i + 1] == S64(ports[i].info.offset)
  {
    if ports != [] {
      ShortPortAt(version, ports[1..], if i == 0 then 0 else i - 1);
    }
  }

  lemma Behind(head: seq<Tag>, rest: seq<Tag>, k: nat)
    requires |head| <= k < |head| + |rest|
    ensures (head + rest)[k] == rest[k - |head|]
  {
  }

  lemma {:induction false} PortAt(version: u8, ports: seq<Port>, i: nat)
    requires version >= 3
    ensures |PrintPorts(version, ports)| == 3 * |ports|
    ensures i < |ports| ==>
      && PrintPorts(version, ports)[3 * i] == Str(Some(ports[i].name.text))
      && PrintPorts(version, ports)[3 * i + 1] == S64(ports[i].info.offset)
      && PrintPorts(version, ports)[3 * i + 2] == Str(ports[i].info.profile)
  {
    if ports != [] {
      var head, rest := PrintPort(version, ports[0]), PrintPorts(version, ports[1..]);
      PortAt(version, ports[1..], if i == 0 then 0 else i - 1);
      if 0 < i < |ports| {
        Behind(head, rest, 3 * i);
        Behind(head, rest, 3 * i + 1);
        Behind(head, rest, 3 * i + 2);
      }
    }
  }

  /** Where the fields lie: version and profile; from version 2 the number of ports and
      for each its name and offset, from version 3 with its profile; from version 4
      the preferred ports. */
  lemma Layout(f: File, i: nat)
    requires |f.ports| < TWO_TO_THE_32
    ensures var t, n := Print(f), |f.ports|;
            && |t| >= 2 && t[0] == U8(f.version) && t[1] == Str(f.profile)
            && (f.version <= 1 ==> |t| == 2)
            && (f.version == 2 ==> |t| == 3 + 2 * n)
            && (f.version == 3 ==> |t| == 3 + 3 * n)
            && (f.version >= 4 ==>
                  && |t| == 5 + 3 * n
                  && t[3 + 3 * n] == Str(f.preferredInput) && t[4 + 3 * n] == Str(f.preferredOutput))
            && (f.version >= 2 ==> t[2] == U32(n))
            && (f.version == 2 && i < n ==>
                  t[3 + 2 * i] == Str(Some(f.ports[i].name.text)) && t[4 + 2 * i] == S64(f.ports[i].info.offset))
            && (f.version >= 3 && i < n ==>
                  && t[3 + 3 * i] == Str(Some(f.ports[i].name.text)) && t[4 + 3 * i] == S64(f.ports[i].info.offset)
                  && t[5 + 3 * i] == Str(f.ports[i].info.profile))
  {
    if f.version >= 3 {
      PortAt(f.version, f.ports, i);
    } else {
      ShortPortAt(f.version, f.ports, i);
    }
  }

  // ----- Parsing, and what is left over -----

  datatype Parsed<T> = Fail | Got(value: T, rest: seq<Tag>)

  function ParsePorts(version: u8, data: seq<Tag>, n: nat, seen: seq<Port>): Parsed<seq<Port>>
    decreases n
  {
    if n == 0 then Got(seen, data)
    else if |data| < 2 || !data[0].Str? || data[0].str.None? || !data[1].S64? then Fail
    else if Named(seen, Name(data[0].str.value)) then Fail
    else if version < 3 then
      ParsePorts(version, data[2..], n - 1, seen + [Port(Name(data[0].str.value), PortInfo(data[1].long, None))])
    else if |data| < 3 || !data[2].Str? then Fail
    else
      ParsePorts(version, data[3..], n - 1, seen + [Port(Name(data[0].str.value), PortInfo(data[1].long, data[2].str))])
  }

  function ParsePreferred(f: File, data: seq<Tag>): Parsed<File> {
    if f.version < 4 then Got(f, data)
    else if |data| < 2 || !data[0].Str? || !data[1].Str? then Fail
    else Got(f.(preferredInput := data[0].str, preferredOutput := data[1].str), data[2..])
  }

  function ParseList(version: u8, data: seq<Tag>): Parsed<seq<Port>> {
    if version < 2 then Got([], data)
    else if |data| < 1 || !data[0].U32? then Fail
    else ParsePorts(version, data[1..], data[0].word, [])
  }

  function ParseFrom(data: seq<Tag>): Parsed<File> {
    if |data| < 2 || !data[0].U8? || data[0].byte > ENTRY_VERSION || !data[1].Str? then Fail
    else
      match ParseList(data[0].byte, data[2..])
      case Fail => Fail
      case Got(ports, rest) => ParsePreferred(File(data[0].byte, data[1].str, ports, None, None), rest)
  }

  /** A port that comes first is parsed first. */
  lemma PortParses(version: u8, p: Port, tail: seq<Tag>, n: nat, seen: seq<Port>)
    requires !Named(seen, p.name) && (version < 3 ==> p.info.profile == None)
    ensures ParsePorts(version, PrintPort(version, p) + tail, n + 1, seen) == ParsePorts(version, tail, n, seen + [p])
  {
  }

  lemma NewName(seen: seq<Port>, ports: seq<Port>)
    requires DistinctNames(seen + ports) && ports != []
    ensures !Named(seen, ports[0].name)
    ensures seen + [ports[0]] + ports[1..] == seen + ports
  {
    var all := seen + ports;
    assert all[|seen|] == ports[0];
    assert forall i :: 0 <= i < |seen| ==> all[i] == seen[i];
  }

  lemma {:induction false} PortsParse(version: u8, ports: seq<Port>, seen: seq<Port>, rest: seq<Tag>)
    requires DistinctNames(seen + ports) && (version < 3 ==> NoProfiles(ports))
    ensures ParsePorts(version, PrintPorts(version, ports) + rest, |ports|, seen) == Got(seen + ports, rest)
    decreases |ports|
  {
    if ports == [] {
      NothingAdded(seen, rest);
    } else {
      var tail := PrintPorts(version, ports[1..]) + rest;
      NewName(seen, ports);
      PortsParse(version, ports[1..], seen + [ports[0]], rest);
      PortParses(version, ports[0], tail, |ports| - 1, seen);
      Regroup(PrintPort(version, ports[0]), PrintPorts(version, ports[1..]), rest);
    }
  }

  lemma NothingAdded(seen: seq<Port>, rest: seq<Tag>)
    ensures seen + [] == seen && [] + seen == seen && [] + rest == rest
  {
  }

  lemma Regroup(a: seq<Tag>, b: seq<Tag>, c: seq<Tag>)
    ensures a + b + c == a + (b + c)
  {
  }

  lemma FirstAndRest(x: Tag, s: seq<Tag>, rest: seq<Tag>)
    ensures ([x] + s + rest)[0] == x && ([x] + s + rest)[1..] == s + rest
  {
  }

  lemma ListParses(version: u8, ports: seq<Port>, rest: seq<Tag>)
    requires |ports| < TWO_TO_THE_32 && DistinctNames(ports)
    requires (version < 2 ==> ports == []) && (version < 3 ==> NoProfiles(ports))
    ensures ParseList(version, PrintList(version, ports) + rest) == Got(ports, rest)
  {
    NothingAdded(ports, rest);
    if version >= 2 {
      FirstAndRest(U32(|ports|), PrintPorts(version, ports), rest);
      PortsParse(version, ports, [], rest);
    }
  }

  lemma PreferredParses(f: File, rest: seq<Tag>)
    requires f.version < 4 ==> f.preferredInput == None == f.preferredOutput
    ensures ParsePreferred(f.(preferredInput := None, preferredOutput := None), PrintPreferred(f) + rest)
         == Got(f, rest)
  {
  }

  /** Whatever follows it, a printed entry is read back. */
  lemma PrintedParses(f: File, rest: seq<Tag>)
    requires WellFormed(f)
    ensures ParseFrom(Print(f) + rest) == Got(f, rest)
  {
    var list, last := PrintList(f.version, f.ports), PrintPreferred(f);
    TwoAndRest(U8(f.version), Str(f.profile), list, last, rest);
    ListParses(f.version, f.ports, last + rest);
    PreferredParses(f, rest);
  }

  lemma TwoAndRest(x: Tag, y: Tag, a: seq<Tag>, b: seq<Tag>, c: seq<Tag>)
    ensures var data := [x, y] + (a + b) + c;
            |data| >= 2 && data[0] == x && data[1] == y && data[2..] == a + (b + c)
  {
  }

  /** Nothing else is accepted: what was parsed was printed. */
  lemma PortWasPrinted(version: u8, data: seq<Tag>, n: nat, seen: seq<Port>) returns (p: Port, tail: seq<Tag>)
    requires n > 0 && ParsePorts(version, data, n, seen).Got?
    ensures data == PrintPort(version, p) + tail
    ensures !Named(seen, p.name) && (version < 3 ==> p.info.profile == None)
    ensures ParsePorts(version, data, n, seen) == ParsePorts(version, tail, n - 1, seen + [p])
  {
    p := Port(Name(data[0].str.value), PortInfo(data[1].long, if version < 3 then None else data[2].str));
    var k := if version < 3 then 2 else 3;
    tail := data[k..];
    assert data[..k] == PrintPort(version, p);
    assert data == data[..k] + data[k..];
  }

  lemma {:induction false} PortsWerePrinted(version: u8, data: seq<Tag>, n: nat, seen: seq<Port>)
    returns (ports: seq<Port>)
    requires DistinctNames(seen) && ParsePorts(version, data, n, seen).Got?
    ensures var r := ParsePorts(version, data, n, seen);
            r.value == seen + ports && |ports| == n && DistinctNames(seen + ports)
            && data == PrintPorts(version, ports) + r.rest
    ensures version < 3 ==> NoProfiles(ports)
    decreases n
  {
    if n == 0 {
      ports := [];
      NothingAdded(seen, data);
    } else {
      var p, tail := PortWasPrinted(version, data, n, seen);
      var others := PortsWerePrinted(version, tail, n - 1, seen + [p]);
      ports := [p] + others;
      PrintedFirst(version, p, others, seen, ParsePorts(version, data, n, seen).rest);
    }
  }

  lemma PrintedFirst(version: u8, p: Port, others: seq<Port>, seen: seq<Port>, rest: seq<Tag>)
    ensures PrintPorts(version, [p] + others) + rest == PrintPort(version, p) + (PrintPorts(version, others) + rest)
    ensures seen + ([p] + others) == seen + [p] + others
  {
  }

  lemma ListWasPrinted(version: u8, data: seq<Tag>)
    requires ParseList(version, data).Got?
    ensures var r := ParseList(version, data);
            && |r.value| < TWO_TO_THE_32 && DistinctNames(r.value)
            && (version < 2 ==> r.value == []) && (version < 3 ==> NoProfiles(r.value))
            && data == PrintList(version, r.value) + r.rest
  {
    if version < 2 {
      NothingAdded([], data);
    } else {
      var ports := PortsWerePrinted(version, data[1..], data[0].word, []);
      NothingAdded(ports, data);
      var rest := ParseList(version, data).rest;
      assert data == [data[0]] + data[1..];
      Regroup([data[0]], PrintPorts(version, ports), rest);
    }
  }

  lemma PreferredWasPrinted(f: File, data: seq<Tag>)
    requires ParsePreferred(f, data).Got? && f.preferredInput == None == f.preferredOutput
    ensures var r := ParsePreferred(f, data);
            && r.value.(preferredInput := None, preferredOutput := None) == f
            && (f.version < 4 ==> r.value == f)
            && data == PrintPreferred(r.value) + r.rest
  {
  }

  lemma ParsedWasPrinted(data: seq<Tag>)
    requires ParseFrom(data).Got?
    ensures var r := ParseFrom(data); WellFormed(r.value) && data == Print(r.value) + r.rest
  {
    var list := ParseList(data[0].byte, data[2..]);
    ListWasPrinted(data[0].byte, data[2..]);
    var f := File(data[0].byte, data[1].str, list.value, None, None);
    PreferredWasPrinted(f, list.rest);
    var r := ParseFrom(data);
    Rejoined(data, PrintList(f.version, f.ports), PrintPreferred(r.value), r.rest);
  }

  lemma Rejoined(data: seq<Tag>, a: seq<Tag>, b: seq<Tag>, c: seq<Tag>)
    requires |data| >= 2 && data[2..] == a + (b + c)
    ensures data == [data[0], data[1]] + (a + b) + c
  {
  }

  // ----- Entries -----

  function Parse(data: seq<Tag>): Option<File> {
    match ParseFrom(data)
    case Got(f, rest) => if rest == [] then Some(f) else None
    case Fail => None
  }

  /** The parser accepts exactly the printed forms, and gives back what was printed. */
  lemma ParseIff(data: seq<Tag>, f: File)
    ensures Parse(data) == Some(f) <==> WellFormed(f) && data == Print(f)
  {
    if Parse(data) == Some(f) {
      ParsedWasPrinted(data);
      assert data == Print(f);
    }
    if WellFormed(f) && data == Print(f) {
      assert Print(f) + [] == Print(f);
      PrintedParses(f, []);
    }
  }

  /** Of an accepted entry, no proper prefix and no proper extension is accepted. */
  lemma PrefixFree(data: seq<Tag>, longer: seq<Tag>)
    requires data < longer
    ensures Parse(data).None? || Parse(longer).None?
  {
    if Parse(data).Some? {
      var f := Parse(data).value;
      ParseIff(data, f);
      PrintedParses(f, longer[|data|..]);
      assert longer == data + longer[|data|..];
    }
  }

  function PortMap(ports: seq<Port>): map<Name, PortInfo> {
    if ports == [] then map[] else PortMap(ports[..|ports| - 1])[ports[|ports| - 1].name := ports[|ports| - 1].info]
  }

  /** The entry that is read: an absent profile becomes the empty string. */
  function EntryOf(f: File): Entry {
    Entry(Some(if f.profile.None? then "" else f.profile.value), PortMap(f.ports), f.preferredInput, f.preferredOutput)
  }

  function Decode(data: seq<Tag>): Option<Entry> {
    match Parse(data)
    case Some(f) => Some(EntryOf(f))
    case None => None
  }

  /** `order` names every port of the entry once. */
  predicate Enumerates(order: seq<Name>, ports: map<Name, PortInfo>) {
    && (forall name | name in ports :: name in order)
    && (forall i :: 0 <= i < |order| ==> order[i] in ports)
    && forall i, j :: 0 <= i < j < |order| ==> order[i] != order[j]
  }

  function PortsIn(order: seq<Name>, ports: map<Name, PortInfo>): seq<Port>
    requires forall i :: 0 <= i < |order| ==> order[i] in ports
  {
    seq(|order|, i requires 0 <= i < |order| => Port(order[i], ports[order[i]]))
  }

  /** The current version of an entry, with its ports in the given order. */
  function FileOf(e: Entry, order: seq<Name>): File
    requires Enumerates(order, e.ports)
  {
    File(ENTRY_VERSION, e.profile, PortsIn(order, e.ports), e.preferredInput, e.preferredOutput)
  }

  predicate Lists(ports: seq<Port>, name: Name, info: PortInfo) {
    exists i :: 0 <= i < |ports| && ports[i] == Port(name, info)
  }

  lemma {:induction false} PortMapHas(ports: seq<Port>, name: Name)
    ensures name in PortMap(ports) <==> Named(ports, name)
    ensures name in PortMap(ports) ==> Lists(ports, name, PortMap(ports)[name])
  {
    if ports != [] {
      var n := |ports| - 1;
      var front := ports[..n];
      PortMapHas(front, name);
      assert forall i :: 0 <= i < n ==> front[i] == ports[i];
      assert ports[n] == Port(ports[n].name, ports[n].info);
    }
  }

  lemma SamePorts(e: Entry, order: seq<Name>)
    requires Enumerates(order, e.ports)
    ensures PortMap(PortsIn(order, e.ports)) == e.ports
  {
    var ports := PortsIn(order, e.ports);
    var m := PortMap(ports);
    forall name
      ensures name in m <==> name in e.ports
      ensures name in m ==> m[name] == e.ports[name]
    {
      PortMapHas(ports, name);
      if name in e.ports {
        var i :| 0 <= i < |order| && order[i] == name;
        assert ports[i].name == name;
      }
    }
  }

  lemma DistinctIn(order: seq<Name>, ports: map<Name, PortInfo>)
    requires Enumerates(order, ports)
    ensures DistinctNames(PortsIn(order, ports))
  {
  }

  /** An entry that was written and read is the same, whatever the order of its ports. */
  lemma RoundTrip(e: Entry, order: seq<Name>)
    requires Enumerates(order, e.ports) && |order| < TWO_TO_THE_32
    ensures var profile := if e.profile.None? then "" else e.profile.value;
            Decode(Print(FileOf(e, order))) == Some(e.(profile := Some(profile)))
  {
    var f := FileOf(e, order);
    DistinctIn(order, e.ports);
    ParseIff(Print(f), f);
    SamePorts(e, order);
  }

  /** What an older version leaves out. */
  function Downgraded(f: File, version: u8): File {
    File(version, f.profile,
         if version < 2 then []
         else if version < 3 then
           seq(|f.ports|, i requires 0 <= i < |f.ports| => f.ports[i].(info := f.ports[i].info.(profile := None)))
         else f.ports,
         if version < 4 then None else f.preferredInput,
         if version < 4 then None else f.preferredOutput)
  }

  /** An entry in an older version is read with what that version lacks absent, and
      with the rest as it was. */
  lemma OlderVersions(f: File, version: u8)
    requires WellFormed(f) && version <= f.version
    ensures WellFormed(Downgraded(f, version))
    ensures Parse(Print(Downgraded(f, version))) == Some(Downgraded(f, version))
    ensures var g := Downgraded(f, version);
            && g.version == version && g.profile == f.profile
            && (version <= 1 ==> g.ports == [])
            && (version >= 2 ==> |g.ports| == |f.ports| && forall i :: 0 <= i < |f.ports| ==>
                  && g.ports[i].name == f.ports[i].name && g.ports[i].info.offset == f.ports[i].info.offset
                  && g.ports[i].info.profile == if version == 2 then None else f.ports[i].info.profile)
            && (version <= 3 ==> g.preferredInput == None == g.preferredOutput)
            && (version >= 4 ==> g.preferredInput == f.preferredInput && g.preferredOutput == f.preferredOutput)
  {
    ParseIff(Print(Downgraded(f, version)), Downgraded(f, version));
  }

  // ----- The printer and the parser -----

  lemma {:induction false} PrintedLast(version: u8, ports: seq<Port>, p: Port)
    ensures PrintPorts(version, ports + [p]) == PrintPorts(version, ports) + PrintPort(version, p)
  {
    if ports == [] {
      assert ports + [p] == [p];
    } else {
      assert (ports + [p])[1..] == ports[1..] + [p];
      PrintedLast(version, ports[1..], p);
      Regroup(PrintPort(version, ports[0]), PrintPorts(version, ports[1..]), PrintPort(version, p));
    }
  }

  /** entry_write, for any order in which the ports are met. */
  method Write(e: Entry, order: seq<Name>) returns (t: seq<Tag>)
    requires Enumerates(order, e.ports) && |order| < TWO_TO_THE_32
    ensures t == Print(FileOf(e, order))
  {
    t := [U8(ENTRY_VERSION)];
    t := t + [Str(e.profile)];
    ghost var head := t;
    t := t + [U32(|order|)];
    var ports := WritePorts(e, order);
    t := t + ports;
    t := t + [Str(e.preferredInput)];
    t := t + [Str(e.preferredOutput)];
    ghost var f := FileOf(e, order);
    Laid(head, [U32(|order|)], ports, Str(e.preferredInput), Str(e.preferredOutput));
  }

  lemma Laid(head: seq<Tag>, n: seq<Tag>, ports: seq<Tag>, x: Tag, y: Tag)
    ensures head + n + ports + [x] + [y] == head + ((n + ports) + [x, y])
  {
  }

  method WritePorts(e: Entry, order: seq<Name>) returns (t: seq<Tag>)
    requires Enumerates(order, e.ports)
    ensures t == PrintPorts(ENTRY_VERSION, PortsIn(order, e.ports))
  {
    ghost var ports := PortsIn(order, e.ports);
    t := [];
    for i := 0 to |order|
      invariant t == PrintPorts(ENTRY_VERSION, ports[..i])
    {
      var info := e.ports[order[i]];
      PrintedLast(ENTRY_VERSION, ports[..i], ports[i]);
      assert ports[..i + 1] == ports[..i] + [ports[i]];
      t := t + [Str(Some(order[i].text)), S64(info.offset), Str(info.profile)];
    }
    assert ports[..|order|] == ports;
  }

  /** One round of the loop in entry_read. */
  method ReadPort(t: Reader, version: u8, known: map<Name, PortInfo>, ghost seen: seq<Port>, ghost n: nat)
    returns (p: Option<Port>)
    requires t.Valid() && known == PortMap(seen)
    modifies t
    ensures t.Valid() && old(t.pos) <= |t.data|
    ensures p.None? ==> ParsePorts(version, t.data[old(t.pos)..], n + 1, seen) == Fail
    ensures p.Some? ==>
              && ParsePorts(version, t.data[old(t.pos)..], n + 1, seen)
                 == ParsePorts(version, t.data[t.pos..], n, seen + [p.value])
  {
    ghost var start := t.pos;
    var name := t.GetString();
    if name.None? || name.value.None? {
      return None;
    }
    PortMapHas(seen, Name(name.value.value));
    if Name(name.value.value) in known {
      return None;
    }
    var offset := t.GetS64();
    if offset.None? {
      return None;
    }
    var profile: Option<Option<string>> := Some(None);
    if version >= 3 {
      profile := t.GetString();
      if profile.None? {
        return None;
      }
    }
    assert t.data[start..][t.pos - start..] == t.data[t.pos..];
    return Some(Port(Name(name.value.value), PortInfo(offset.value, profile.value)));
  }

  /** The loop in entry_read. */
  method ReadPorts(t: Reader, version: u8, n: nat) returns (ok: bool, ports: map<Name, PortInfo>, ghost list: seq<Port>)
    requires t.Valid()
    modifies t
    ensures t.Valid() && old(t.pos) <= |t.data|
    ensures var r := ParsePorts(version, t.data[old(t.pos)..], n, []);
            if ok then r == Got(list, t.data[t.pos..]) && ports == PortMap(list) else r == Fail
  {
    ghost var start := t.pos;
    ok, ports, list := true, map[], [];
    for i := 0 to n
      invariant t.Valid() && ports == PortMap(list)
      invariant ParsePorts(version, t.data[start..], n, []) == ParsePorts(version, t.data[t.pos..], n - i, list)
    {
      var p := ReadPort(t, version, ports, list, n - i - 1);
      if p.None? {
        ok := false;
        return;
      }
      Added(list, p.value);
      ports := ports[p.value.name := p.value.info];
      list := list + [p.value];
    }
  }

  lemma Added(list: seq<Port>, p: Port)
    ensures PortMap(list + [p]) == PortMap(list)[p.name := p.info]
  {
  }

  /** entry_read: parse an entry of any known version, rejecting anything else. */
  method Read(data: seq<Tag>) returns (r: Option<Entry>)
    ensures r == Decode(data)
  {
    var t := new Reader(data);
    var version := t.GetU8();
    if version.None? || version.value > ENTRY_VERSION {
      return None;
    }
    var profile := t.GetString();
    if profile.None? {
      return None;
    }
    ghost var list: seq<Port> := [];
    var ports: map<Name, PortInfo> := map[];
    if version.value >= 2 {
      var count := t.GetU32();
      if count.None? {
        return None;
      }
      assert data[2..][1..] == data[3..];
      var ok;
      ok, ports, list := ReadPorts(t, version.value, count.value);
      if !ok {
        return None;
      }
    }
    assert ParseList(version.value, data[2..]) == Got(list, data[t.pos..]);
    var input, output: Option<string> := None, None;
    if version.value >= 4 {
      ghost var rest, start := data[t.pos..], t.pos;
      var first := t.GetString();
      if first.None? {
        return None;
      }
      var second := t.GetString();
      if second.None? {
        return None;
      }
      assert rest[2..] == data[t.pos..];
      input, output := first.value, second.value;
    }
    if t.pos != |t.data| {
      return None;
    }
    return Some(Entry(Some(if profile.value.None? then "" else profile.value.value), ports, input, output));
  }
}
