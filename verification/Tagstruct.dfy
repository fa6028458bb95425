/** The tagged value sequences in which the daemon's databases keep their
    entries, and the cursor that reads them back one value at a time. */
module Tagstruct {
  import opened Common

  const TWO_TO_THE_32: int := 0x1_0000_0000

  type u8 = n: int | 0 <= n < 0x100
  type u32 = n: int | 0 <= n < TWO_TO_THE_32
  type s64 = n: int | -0x8000_0000_0000_0000 <= n < 0x8000_0000_0000_0000

  /** Unsigned 32-bit arithmetic. */
  function Wrap32(n: nat): (r: u32)
    ensures n < TWO_TO_THE_32 ==> r == n
  {
    n % 0x1_0000_0000
  }

  /** One tagged value. A string may be absent: `puts(NULL)` has a tag of its own. */
  datatype Tag =
    | U8(byte: u8)
    | U32(word: u32)
    | S64(long: s64)
    | Bool(flag: bool)
    | Str(str: Option<string>)

  /** A tagstruct opened for reading. A getter that meets the end of the data
      or a value of another type fails and leaves the cursor where it is. */
  class Reader {
    const data: seq<Tag>
    var pos: nat

    constructor (data: seq<Tag>)
      ensures this.data == data && pos == 0
    {
      this.data := data;
      pos := 0;
    }

    ghost predicate Valid()
      reads this
    {
      pos <= |data|
    }

    method GetU8() returns (r: Option<u8>)
      requires Valid()
      modifies this
      ensures Valid()
      ensures old(pos) < |data| && data[old(pos)].U8? ==> r == Some(data[old(pos)].byte) && pos == old(pos) + 1
      ensures !(old(pos) < |data| && data[old(pos)].U8?) ==> r == None && pos == old(pos)
    {
      if pos < |data| && data[pos].U8? {
        r := Some(data[pos].byte);
        pos := pos + 1;
      } else {
        r := None;
      }
    }

    method GetU32() returns (r: Option<u32>)
      requires Valid()
      modifies this
      ensures Valid()
      ensures old(pos) < |data| && data[old(pos)].U32? ==> r == Some(data[old(pos)].word) && pos == old(pos) + 1
      ensures !(old(pos) < |data| && data[old(pos)].U32?) ==> r == None && pos == old(pos)
    {
      if pos < |data| && data[pos].U32? {
        r := Some(data[pos].word);
        pos := pos + 1;
      } else {
        r := None;
      }
    }

    method GetS64() returns (r: Option<s64>)
      requires Valid()
      modifies this
      ensures Valid()
      ensures old(pos) < |data| && data[old(pos)].S64? ==> r == Some(data[old(pos)].long) && pos == old(pos) + 1
      ensures !(old(pos) < |data| && data[old(pos)].S64?) ==> r == None && pos == old(pos)
    {
      if pos < |data| && data[pos].S64? {
        r := Some(data[pos].long);
        pos := pos + 1;
      } else {
        r := None;
      }
    }

    method GetBoolean() returns (r: Option<bool>)
      requires Valid()
      modifies this
      ensures Valid()
      ensures old(pos) < |data| && data[old(pos)].Bool? ==> r == Some(data[old(pos)].flag) && pos == old(pos) + 1
      ensures !(old(pos) < |data| && data[old(pos)].Bool?) ==> r == None && pos == old(pos)
    {
      if pos < |data| && data[pos].Bool? {
        r := Some(data[pos].flag);
        pos := pos + 1;
      } else {
        r := None;
      }
    }

    method GetString() returns (r: Option<Option<string>>)
      requires Valid()
      modifies this
      ensures Valid()
      ensures old(pos) < |data| && data[old(pos)].Str? ==> r == Some(data[old(pos)].str) && pos == old(pos) + 1
      ensures !(old(pos) < |data| && data[old(pos)].Str?) ==> r == None && pos == old(pos)
    {
      if pos < |data| && data[pos].Str? {
        r := Some(data[pos].str);
        pos := pos + 1;
      } else {
        r := None;
      }
    }
  }
}
