/** Channels as blocks of bytes: channel_to_data, channel_to_data_size and channel_from_data. */
module ChannelCodec {
  import opened Wrappers
  import opened Bytes
  import opened Strings

  const NO_PARENT: nat := 0xFFFF_FFFF
  const FIXED: nat := 16

  // What channel_to_data reads of a channel; the parent is given by its id.
  datatype Channel = Channel(id: nat, flags: nat, codec: nat, parent: Option<nat>, sortOrder: nat, maxSlots: nat,
                             name: seq<byte>, topic: seq<byte>, desc: seq<byte>)

  // What channel_from_data fills in: the id is not read, and a parent is only an id.
  datatype Parsed = Parsed(flags: nat, codec: nat, parentId: nat, sortOrder: nat, maxUsers: nat,
                           name: seq<byte>, topic: seq<byte>, desc: seq<byte>)

  // The widths of the fields, and strings as C has them.
  predicate Typed(c: Channel) {
    && c.flags < 0x1_0000 && c.codec < 0x100 && c.sortOrder < 0x1_0000
    && (c.parent.Some? ==> c.parent.value < 0x1_0000_0000)
    && NulFree(c.name) && NulFree(c.topic) && NulFree(c.desc)
  }

  function Head(c: Channel): (s: seq<byte>)
    ensures |s| == FIXED
  {
    ToLe(c.id, 4) + ToLe(c.flags, 2) + ToLe(c.codec, 2)
    + ToLe(if c.parent.Some? then c.parent.value else NO_PARENT, 4) + ToLe(c.sortOrder, 2) + ToLe(c.maxSlots, 2)
  }

  function Encode(c: Channel): (s: seq<byte>)
    ensures |s| == Size(c)
  {
    Head(c) + (c.name + [0]) + (c.topic + [0]) + (c.desc + [0])
  }

  // channel_to_data_size
  function Size(c: Channel): nat {
    FIXED + |c.name| + 1 + |c.topic| + 1 + |c.desc| + 1
  }

  // One string of the block: what strndup copies under the bound that leaves `slack` bytes,
  // and where the cursor stands afterwards.
  function Str(s: seq<byte>, at: nat, slack: nat): Option<(seq<byte>, nat)>
    requires slack <= 3
  {
    if at > |s| then None
    else
      var r := Dup(s, at, AsSize(|s| - at - slack));
      if r.Some? then Some((r.value, at + |r.value| + 1)) else None
  }

  // The channel a block holds and the number of bytes it took; nothing if a read left the block.
  function Decode(s: seq<byte>): Option<(Parsed, nat)> {
    if |s| < FIXED then None
    else
      var name := Str(s, FIXED, 3);
      if name.None? then None
      else
        var topic := Str(s, name.value.1, 2);
        if topic.None? then None
        else
          var desc := Str(s, topic.value.1, 1);
          if desc.None? then None
          else
            var parent := FieldAt(s, 8, 4);
            Some((Parsed(FieldAt(s, 4, 2), FieldAt(s, 6, 2) % 0x100, if parent != NO_PARENT then parent else 0,
                         FieldAt(s, 12, 2), FieldAt(s, 14, 2), name.value.0, topic.value.0, desc.value.0),
                  desc.value.1))
  }

  // ---- Reading stays inside the block ----

  lemma StrStays(s: seq<byte>, at: nat, slack: nat)
    requires 1 <= slack <= 3 && at + slack <= |s|
    ensures var r := Str(s, at, slack); r.Some? && r.value.1 + slack - 1 <= |s| && NulFree(r.value.0)
  {
    OverrunsExactly(s, at, |s| - at - slack);
    DupIsNulFree(s, at, |s| - at - slack);
  }

  lemma StrWithoutRoom(s: seq<byte>, at: nat, slack: nat)
    requires 1 <= slack <= 3 && at <= |s| < at + slack
    ensures var r := Str(s, at, slack); r.Some? ==> at < r.value.1 <= |s|
  {
    var n := AsSize(|s| - at - slack);
    var k := Scan(s, at, n);
    if k.Some? {
      ScanExactly(s, at, n, k.value);
    }
  }

  // The bounds given to the second and third copy, and to the first, are not negative.
  ghost predicate BoundsHold(s: seq<byte>) {
    var name := Str(s, FIXED, 3);
    && |s| - FIXED - 3 >= 0 && name.Some? && |s| - name.value.1 - 2 >= 0
    && var topic := Str(s, name.value.1, 2);
    && topic.Some? && |s| - topic.value.1 - 1 >= 0
  }

  ghost function ParsedSize(p: Parsed): nat {
    FIXED + |p.name| + 1 + |p.topic| + 1 + |p.desc| + 1
  }

  // The three bounds of channel_from_data are right for every block, well-formed or not:
  // from 19 bytes on none of them is negative, nothing at or past the end is read, and the
  // offset returned is within the block and is the size the parsed channel has when written.
  // For a shorter block the first bound wraps around and some read leaves the block.
  lemma StaysInsideExactly(s: seq<byte>)
    ensures Decode(s).Some? <==> |s| >= 19
    ensures |s| >= 19 ==> BoundsHold(s)
    ensures Decode(s).Some? ==> Decode(s).value.1 <= |s| && Decode(s).value.1 == ParsedSize(Decode(s).value.0)
  {
    hide FieldAt, NulFree;
    if |s| >= FIXED + 3 {
      StrStays(s, FIXED, 3);
      var name := Str(s, FIXED, 3).value;
      StrStays(s, name.1, 2);
      var topic := Str(s, name.1, 2).value;
      StrStays(s, topic.1, 1);
    } else if |s| >= FIXED {
      ShortBlockOverruns(s);
    }
  }

  lemma ShortBlockOverruns(s: seq<byte>)
    requires FIXED <= |s| < FIXED + 3
    ensures Decode(s) == None
  {
    hide FieldAt;
    StrWithoutRoom(s, FIXED, 3);
    var name := Str(s, FIXED, 3);
    if name.Some? {
      StrWithoutRoom(s, name.value.1, 2);
      var topic := Str(s, name.value.1, 2);
      if topic.Some? {
        StrWithoutRoom(s, topic.value.1, 1);
      }
    }
  }

  // What is read of any block that can be read: the numbers at their offsets, a parent's
  // identifier unless it stands for none, the codec cut to eight bits; and three strings, each up
  // to its NUL or to the bound that leaves room for the terminators still to come.
  lemma ParsedExactly(s: seq<byte>)
    requires |s| >= 19
    ensures Decode(s).Some? && var p := Decode(s).value.0;
      && p.flags == FieldAt(s, 4, 2) && p.codec == FieldAt(s, 6, 2) % 256
      && p.parentId == (if FieldAt(s, 8, 4) == 0xFFFF_FFFF then 0 else FieldAt(s, 8, 4))
      && p.sortOrder == FieldAt(s, 12, 2) && p.maxUsers == FieldAt(s, 14, 2)
      && var a, b := 16 + |p.name| + 1, 16 + |p.name| + 1 + |p.topic| + 1;
      && a <= |s| - 2 && b <= |s| - 1
      && StopsAt(s, 16, |s| - 19, |p.name|) && p.name == s[16..16 + |p.name|]
      && StopsAt(s, a, |s| - a - 2, |p.topic|) && p.topic == s[a..a + |p.topic|]
      && StopsAt(s, b, |s| - b - 1, |p.desc|) && p.desc == s[b..b + |p.desc|]
  {
    hide FieldAt, NulFree, Scan, StopsAt;
    StaysInsideExactly(s);
    var p := Decode(s).value.0;
    var a := 16 + |p.name| + 1;
    var b := a + |p.topic| + 1;
    StrStays(s, 16, 3);
    StrStays(s, a, 2);
    StrStays(s, b, 1);
    ScanExactly(s, 16, |s| - 19, |p.name|);
    ScanExactly(s, a, |s| - a - 2, |p.topic|);
    ScanExactly(s, b, |s| - b - 1, |p.desc|);
  }

  // ---- Round trip ----

  lemma StrFinds(s: seq<byte>, at: nat, slack: nat, str: seq<byte>)
    requires slack <= 3 && at + |str| + 1 <= |s| && at + |str| + slack <= |s| && NulFree(str)
    requires s[at..at + |str| + 1] == str + [0]
    ensures Str(s, at, slack) == Some((str, at + |str| + 1))
  {
    var block := s[at..at + |str| + 1];
    assert s[at + |str|] == block[|str|] == 0;
    forall j | at <= j < at + |str| ensures s[j] != 0 {
      assert s[j] == block[j - at] == str[j - at];
    }
    ScanExactly(s, at, |s| - at - slack, |str|);
    assert s[at..at + |str|] == block[..|str|] == str;
  }

  lemma FieldReads32(s: seq<byte>, at: nat, n: nat)
    requires at + 4 <= |s| && s[at..at + 4] == ToLe(n, 4)
    ensures FieldAt(s, at, 4) == n % 0x1_0000_0000
  {
    ReadsWhatWasWritten(n, 4);
    assert Pow(256, 4) == 0x1_0000_0000;
  }

  lemma FieldReads16(s: seq<byte>, at: nat, n: nat)
    requires at + 2 <= |s| && s[at..at + 2] == ToLe(n, 2)
    ensures FieldAt(s, at, 2) == n % 0x1_0000
  {
    ReadsWhatWasWritten(n, 2);
    assert Pow(256, 2) == 0x1_0000;
  }

  lemma HeadSlices(c: Channel, s: seq<byte>)
    requires Head(c) <= s
    ensures s[0..4] == ToLe(c.id, 4) && s[4..6] == ToLe(c.flags, 2) && s[6..8] == ToLe(c.codec, 2)
    ensures s[8..12] == ToLe(if c.parent.Some? then c.parent.value else NO_PARENT, 4)
    ensures s[12..14] == ToLe(c.sortOrder, 2) && s[14..16] == ToLe(c.maxSlots, 2)
  {
    hide ToLe;
    assert forall i :: 0 <= i < FIXED ==> s[i] == Head(c)[i];
  }

  lemma TailSlices(h: seq<byte>, a: seq<byte>, b: seq<byte>, d: seq<byte>, rest: seq<byte>)
    ensures var s := h + a + b + d + rest;
      && s[|h|..|h| + |a|] == a && s[|h| + |a|..|h| + |a| + |b|] == b
      && s[|h| + |a| + |b|..|h| + |a| + |b| + |d|] == d
      && h <= s
  {
  }

  // What survives the trip: the identifier is skipped, the limit is cut to sixteen bits, and
  // a parent with the identifier that stands for "none" is none.
  function Expected(c: Channel): Parsed {
    Parsed(c.flags, c.codec, if c.parent.Some? && c.parent.value != NO_PARENT then c.parent.value else 0,
           c.sortOrder, c.maxSlots % 0x1_0000, c.name, c.topic, c.desc)
  }

  // A block followed by anything at all is read back as the channel it was written from, and
  // the reader stops exactly at its end.
  lemma RoundTrip(c: Channel, rest: seq<byte>)
    requires Typed(c)
    ensures Decode(Encode(c) + rest) == Some((Expected(c), Size(c)))
  {
    hide Head, NulFree, Str, FieldAt;
    var s := Encode(c) + rest;
    TailSlices(Head(c), c.name + [0], c.topic + [0], c.desc + [0], rest);
    StrFinds(s, FIXED, 3, c.name);
    StrFinds(s, FIXED + |c.name| + 1, 2, c.topic);
    StrFinds(s, FIXED + |c.name| + 1 + |c.topic| + 1, 1, c.desc);
    HeadReads(c, s);
  }

  lemma HeadReads(c: Channel, s: seq<byte>)
    requires Typed(c) && Head(c) <= s
    ensures FieldAt(s, 4, 2) == c.flags && FieldAt(s, 6, 2) == c.codec
    ensures FieldAt(s, 8, 4) == if c.parent.Some? then c.parent.value else NO_PARENT
    ensures FieldAt(s, 12, 2) == c.sortOrder && FieldAt(s, 14, 2) == c.maxSlots % 0x1_0000
  {
    hide Head, ToLe, NulFree;
    HeadSlices(c, s);
    FieldReads16(s, 4, c.flags);
    FieldReads16(s, 6, c.codec);
    FieldReads32(s, 8, if c.parent.Some? then c.parent.value else NO_PARENT);
    FieldReads16(s, 12, c.sortOrder);
    FieldReads16(s, 14, c.maxSlots);
  }

  // Where everything is in a block, whatever follows it: the identifier, which the reader skips,
  // the five other numbers cut to their widths, and the three strings with their terminators.
  lemma BlockLayout(c: Channel, rest: seq<byte>)
    ensures var s := Encode(c) + rest;
      && |Encode(c)| == 19 + |c.name| + |c.topic| + |c.desc|
      && FieldAt(s, 0, 4) == c.id % 0x1_0000_0000
      && FieldAt(s, 4, 2) == c.flags % 0x1_0000 && FieldAt(s, 6, 2) == c.codec % 0x1_0000
      && FieldAt(s, 8, 4) == (if c.parent.Some? then c.parent.value else 0xFFFF_FFFF) % 0x1_0000_0000
      && FieldAt(s, 12, 2) == c.sortOrder % 0x1_0000 && FieldAt(s, 14, 2) == c.maxSlots % 0x1_0000
      && s[16..|Encode(c)|] == c.name + [0] + c.topic + [0] + c.desc + [0]
  {
    hide ToLe, FieldAt;
    var s := Encode(c) + rest;
    StringsLast(c, rest);
    HeadSlices(c, s);
    hide Head, Encode;
    FieldReads32(s, 0, c.id);
    FieldReads16(s, 4, c.flags);
    FieldReads16(s, 6, c.codec);
    FieldReads32(s, 8, if c.parent.Some? then c.parent.value else NO_PARENT);
    FieldReads16(s, 12, c.sortOrder);
    FieldReads16(s, 14, c.maxSlots);
  }

  lemma StringsLast(c: Channel, rest: seq<byte>)
    ensures Head(c) <= Encode(c) + rest
    ensures (Encode(c) + rest)[16..|Encode(c)|] == c.name + [0] + c.topic + [0] + c.desc + [0]
  {
    hide Head;
  }

  // Blocks are self-delimiting: no block is the beginning of another channel's block, up to
  // what a block does not carry.
  lemma BlocksAreSelfDelimiting(c: Channel, d: Channel, r: seq<byte>, t: seq<byte>)
    requires Typed(c) && Typed(d) && Encode(c) + r == Encode(d) + t
    ensures Expected(c) == Expected(d) && Encode(c) == Encode(d) && r == t
  {
    RoundTrip(c, r);
    RoundTrip(d, t);
    hide Encode;
    assert Encode(c) == (Encode(c) + r)[..Size(c)] && Encode(d) == (Encode(d) + t)[..Size(d)];
    assert r == (Encode(c) + r)[Size(c)..] && t == (Encode(d) + t)[Size(d)..];
  }

  // ---- The code ----

  // channel_to_data
  method ChannelToData(c: Channel, data: array<byte>, at: nat) returns (size: nat)
    requires at + Size(c) <= data.Length
    modifies data
    ensures data[..] == Overwrite(old(data[..]), at, Encode(c))
    ensures size == Size(c)
  {
    hide ToLe, Overwrite;
    ghost var s := data[..];
    size := Size(c);
    var ptr := HeadToData(c, data, at);
    ptr := Strcpy(data, ptr, c.name);
    OverwriteTwice(s, at, Head(c), c.name + [0]);
    ptr := Strcpy(data, ptr, c.topic);
    OverwriteTwice(s, at, Head(c) + (c.name + [0]), c.topic + [0]);
    ptr := Strcpy(data, ptr, c.desc);
    OverwriteTwice(s, at, Head(c) + (c.name + [0]) + (c.topic + [0]), c.desc + [0]);
    assert ptr - at == size;
  }

  method HeadToData(c: Channel, data: array<byte>, at: nat) returns (ptr: nat)
    requires at + FIXED <= data.Length
    modifies data
    ensures data[..] == Overwrite(old(data[..]), at, Head(c))
    ensures ptr == at + FIXED
  {
    hide ToLe, Overwrite;
    ghost var s := data[..];
    var parent := if c.parent.Some? then c.parent.value else NO_PARENT;
    ptr := WriteLe(data, at, c.id, 4);
    ghost var w := ToLe(c.id, 4);
    ptr := WriteLe(data, ptr, c.flags, 2);
    OverwriteTwice(s, at, w, ToLe(c.flags, 2));
    w := w + ToLe(c.flags, 2);
    ptr := WriteLe(data, ptr, c.codec, 2);
    OverwriteTwice(s, at, w, ToLe(c.codec, 2));
    w := w + ToLe(c.codec, 2);
    ptr := WriteLe(data, ptr, parent, 4);
    OverwriteTwice(s, at, w, ToLe(parent, 4));
    w := w + ToLe(parent, 4);
    ptr := WriteLe(data, ptr, c.sortOrder, 2);
    OverwriteTwice(s, at, w, ToLe(c.sortOrder, 2));
    w := w + ToLe(c.sortOrder, 2);
    ptr := WriteLe(data, ptr, c.maxSlots, 2);
    OverwriteTwice(s, at, w, ToLe(c.maxSlots, 2));
  }

  // channel_from_data: the result is missing where the code would read past the block.
  method ChannelFromData(data: array<byte>) returns (res: Option<(Parsed, nat)>)
    ensures res == Decode(data[..])
  {
    hide FieldAt;
    if data.Length < FIXED {
      return None;
    }
    var ptr: nat := 4;
    var flags, codec, parentId, sortOrder, maxUsers;
    flags, ptr := ReadLe(data, ptr, 2);
    codec, ptr := ReadLe(data, ptr, 2);
    parentId, ptr := ReadLe(data, ptr, 4);
    sortOrder, ptr := ReadLe(data, ptr, 2);
    maxUsers, ptr := ReadLe(data, ptr, 2);
    var name, topic, desc: Option<seq<byte>>;
    name, ptr := StringFromData(data, ptr, 3);
    if name == None {
      return None;
    }
    topic, ptr := StringFromData(data, ptr, 2);
    if topic == None {
      return None;
    }
    desc, ptr := StringFromData(data, ptr, 1);
    if desc == None {
      return None;
    }
    var parsed := Parsed(flags, codec % 0x100, 0, sortOrder, maxUsers, name.value, topic.value, desc.value);
    if parentId != NO_PARENT {
      parsed := parsed.(parentId := parentId);
    }
    return Some((parsed, ptr));
  }

  method StringFromData(data: array<byte>, at: nat, slack: nat) returns (str: Option<seq<byte>>, next: nat)
    requires slack <= 3
    ensures var r := Str(data[..], at, slack);
      str.Some? == r.Some? && (r.Some? ==> str.value == r.value.0 && next == r.value.1)
  {
    str, next := None, at;
    if at <= data.Length {
      str := Strndup(data, at, AsSize(data.Length - at - slack));
      if str.Some? {
        next := at + |str.value| + 1;
      }
    }
  }
}
