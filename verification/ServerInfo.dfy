/** The channel and player lists sent to a client that joins: control_packets/ctl_server_info.c. */
module ServerInfo {
  import opened Wrappers
  import opened Bytes
  import opened Strings
  import opened SlotArray
  import Codec = ChannelCodec
  import PacketTools
  import Protocol
  import Sender = PacketSender

  const CONTROL: nat := 0xBEF0
  const LIST_CHANNELS: nat := 0x0006
  const LIST_PLAYERS: nat := 0x0007
  const BODY: nat := 28
  const PER_PAGE: nat := 10
  const PLAYER_SIZE: nat := 44
  const NAME_SIZE: nat := 29

  function Fill(n: nat): (s: seq<byte>)
    ensures |s| == n && forall i :: 0 <= i < n ==> s[i] == 0
  {
    seq(n, _ => 0)
  }

  // The header before it is stamped for its recipient, and the number of entries.
  function Header(kind: nat, count: nat): (s: seq<byte>)
    ensures |s| == BODY
  {
    ToLe(CONTROL, 2) + ToLe(kind, 2) + Fill(20) + ToLe(count, 4)
  }

  method WriteHeader(data: array<byte>, kind: nat, count: nat) returns (ptr: nat)
    requires data.Length >= BODY && data[..] == Fill(data.Length)
    modifies data
    ensures data[..] == Header(kind, count) + Fill(data.Length - BODY)
    ensures ptr == BODY
  {
    hide ToLe;
    ptr := WriteLe(data, 0, CONTROL, 2);
    ptr := WriteLe(data, ptr, kind, 2);
    ptr := ptr + 20;
    ptr := WriteLe(data, ptr, count, 4);
    assert data[..] == Header(kind, count) + Fill(data.Length - BODY);
  }

  // Nothing past the header is touched on the way out.
  lemma BodyKept(p: seq<byte>, kind: nat, count: nat, body: seq<byte>, privateId: nat, publicId: nat)
    requires p == Header(kind, count) + body && count < 0x1_0000_0000
    ensures Sender.Template(Sender.Addressed(p, privateId, publicId))[BODY..] == body
    ensures FieldAt(Sender.Template(Sender.Addressed(p, privateId, publicId)), 24, 4) == count
    ensures FieldAt(Sender.Template(Sender.Addressed(p, privateId, publicId)), 0, 2) == 0xBEF0
    ensures FieldAt(Sender.Template(Sender.Addressed(p, privateId, publicId)), 2, 2) == kind % 0x1_0000
    ensures FieldAt(p, Sender.VERSION_AT, 2) == 0
  {
    hide ToLe, FromLe;
    var q := Sender.Template(Sender.Addressed(p, privateId, publicId));
    assert forall k :: Sender.HEADER <= k < |p| ==> q[k] == p[k];
    assert q[24..28] == p[24..28] == ToLe(count, 4);
    assert q[0..2] == p[0..2] == ToLe(CONTROL, 2) && q[2..4] == p[2..4] == ToLe(kind, 2);
    Codec.FieldReads32(q, 24, count);
    Codec.FieldReads16(q, 0, CONTROL);
    Codec.FieldReads16(q, 2, kind);
    ZeroVersion(kind, count, body);
  }

  lemma ZeroVersion(kind: nat, count: nat, body: seq<byte>)
    ensures FieldAt(Header(kind, count) + body, Sender.VERSION_AT, 2) == 0
  {
    hide ToLe;
    assert (Header(kind, count) + body)[16..18] == [0, 0];
    assert FromLe([0, 0]) == 0;
  }

  // ---- Channels ----

  function SizeAll(cs: seq<Codec.Channel>): nat {
    if cs == [] then 0 else Codec.Size(cs[0]) + SizeAll(cs[1..])
  }

  function EncodeAll(cs: seq<Codec.Channel>): (s: seq<byte>)
    ensures |s| == SizeAll(cs)
  {
    if cs == [] then [] else Codec.Encode(cs[0]) + EncodeAll(cs[1..])
  }

  function ChannelList(cs: seq<Codec.Channel>): seq<byte> {
    Header(LIST_CHANNELS, |cs|) + EncodeAll(cs)
  }

  // Reading n blocks one after the other.
  function DecodeAll(s: seq<byte>, n: nat): Option<(seq<Codec.Parsed>, nat)>
    decreases n
  {
    if n == 0 then Some(([], 0))
    else
      var one := Codec.Decode(s);
      if one.None? || one.value.1 > |s| then None
      else
        var more := DecodeAll(s[one.value.1..], n - 1);
        if more.None? then None else Some(([one.value.0] + more.value.0, one.value.1 + more.value.1))
  }

  function ExpectedAll(cs: seq<Codec.Channel>): (ps: seq<Codec.Parsed>)
    ensures |ps| == |cs| && forall i :: 0 <= i < |cs| ==> ps[i] == Codec.Expected(cs[i])
  {
    seq(|cs|, i requires 0 <= i < |cs| => Codec.Expected(cs[i]))
  }

  ghost predicate AllTyped(cs: seq<Codec.Channel>) {
    forall i :: 0 <= i < |cs| ==> Codec.Typed(cs[i])
  }

  lemma DecodeStep(s: seq<byte>, n: nat, p: Codec.Parsed, k: nat, ps: seq<Codec.Parsed>, m: nat)
    requires n > 0 && Codec.Decode(s) == Some((p, k)) && k <= |s| && DecodeAll(s[k..], n - 1) == Some((ps, m))
    ensures DecodeAll(s, n) == Some(([p] + ps, k + m))
  {
    hide Codec.Decode;
  }

  lemma {:induction false} ListRoundTrip(cs: seq<Codec.Channel>, rest: seq<byte>)
    requires AllTyped(cs)
    ensures DecodeAll(EncodeAll(cs) + rest, |cs|) == Some((ExpectedAll(cs), SizeAll(cs)))
  {
    hide Codec.Decode, Codec.Encode, Codec.Expected, Codec.Typed, Codec.Size;
    if cs == [] {
      assert DecodeAll(EncodeAll(cs) + rest, 0) == Some(([], 0));
      assert ExpectedAll(cs) == [];
    } else {
      hide DecodeAll;
      ListRoundTrip(cs[1..], rest);
      var one, more := Codec.Encode(cs[0]), EncodeAll(cs[1..]) + rest;
      assert EncodeAll(cs) == one + EncodeAll(cs[1..]);
      assert EncodeAll(cs) + rest == one + more;
      Codec.RoundTrip(cs[0], more);
      assert (one + more)[|one|..] == more;
      DecodeStep(one + more, |cs|, Codec.Expected(cs[0]), |one|, ExpectedAll(cs[1..]), SizeAll(cs[1..]));
      assert ExpectedAll(cs) == [Codec.Expected(cs[0])] + ExpectedAll(cs[1..]);
    }
  }

  // The list as it is queued says how many channels follow, and they are the live ones in
  // slot order, to the last byte of the packet.
  lemma ChannelListArrives(live: seq<Codec.Channel>, privateId: nat, publicId: nat)
    requires AllTyped(live) && |live| < 0x1_0000_0000
    ensures var p := Sender.Template(Sender.Addressed(ChannelList(live), privateId, publicId));
      && |p| >= 28 && FieldAt(p, 0, 2) == 0xBEF0 && FieldAt(p, 2, 2) == 6 && FieldAt(p, 24, 4) == |live|
      && DecodeAll(p[28..], |live|) == Some((ExpectedAll(live), |p| - 28))
      && p[28..] == EncodeAll(live)
  {
    hide EncodeAll, DecodeAll, ExpectedAll;
    BodyKept(ChannelList(live), LIST_CHANNELS, |live|, EncodeAll(live), privateId, publicId);
    ListRoundTrip(live, []);
    assert EncodeAll(live) + [] == EncodeAll(live);
  }

  // The blocks of a list one by one: each is where the sizes of those before it end.
  lemma {:induction false} BlockAt(cs: seq<Codec.Channel>, k: nat)
    requires k < |cs|
    ensures var at := SizeAll(cs[..k]);
      && at + Codec.Size(cs[k]) <= |EncodeAll(cs)|
      && EncodeAll(cs)[at..at + Codec.Size(cs[k])] == Codec.Encode(cs[k])
    decreases k
  {
    hide Codec.Encode, Codec.Size;
    var one, more := Codec.Encode(cs[0]), EncodeAll(cs[1..]);
    if k == 0 {
      assert cs[..0] == [] && (one + more)[0..|one|] == one;
    } else {
      BlockAt(cs[1..], k - 1);
      assert cs[..k][0] == cs[0] && cs[..k][1..] == cs[1..][..k - 1];
      FurtherOn(one, more, SizeAll(cs[1..][..k - 1]), Codec.Size(cs[k]));
    }
  }

  lemma FurtherOn<T>(a: seq<T>, b: seq<T>, at: nat, n: nat)
    requires at + n <= |b|
    ensures (a + b)[|a| + at..|a| + at + n] == b[at..at + n]
  {
  }

  // Each begins with the identifier of its channel.
  lemma ListedId(cs: seq<Codec.Channel>, k: nat)
    requires k < |cs|
    ensures var at := SizeAll(cs[..k]);
      at + 4 <= |EncodeAll(cs)| && FieldAt(EncodeAll(cs), at, 4) == cs[k].id % 0x1_0000_0000
  {
    BlockAt(cs, k);
    Codec.BlockLayout(cs[k], []);
    var one, all, at := Codec.Encode(cs[k]), EncodeAll(cs), SizeAll(cs[..k]);
    hide Codec.Encode, EncodeAll, SizeAll;
    Window(all, at, |one|, 0, 4);
    assert (one + [])[0..4] == one[0..4] == all[at..at + 4];
  }

  lemma ElemsStep<T>(c: seq<Option<T>>, i: nat)
    requires i < |c|
    ensures Elems(c[i..]) == (if c[i].Some? then [c[i].value] else []) + Elems(c[i + 1..])
  {
    assert c[i..][1..] == c[i + 1..];
  }

  lemma AllStep(c: Codec.Channel, rest: seq<Codec.Channel>)
    ensures SizeAll([c] + rest) == Codec.Size(c) + SizeAll(rest)
    ensures EncodeAll([c] + rest) == Codec.Encode(c) + EncodeAll(rest)
  {
    assert ([c] + rest)[1..] == rest;
  }

  // s_resp_chans, the size pass.
  method SizeOfList(chans: Array<Codec.Channel>) returns (size: nat)
    ensures size == BODY + SizeAll(Elems(chans.cells[..]))
  {
    hide Codec.Size;
    ghost var c := chans.cells[..];
    size := Sender.HEADER;
    size := size + 4;
    assert c[0..] == c;
    for i := 0 to chans.cells.Length
      invariant size + SizeAll(Elems(c[i..])) == BODY + SizeAll(Elems(c))
    {
      ElemsStep(c, i);
      if chans.cells[i].Some? {
        AllStep(c[i].value, Elems(c[i + 1..]));
        size := size + Codec.Size(chans.cells[i].value);
      } else {
        assert [] + Elems(c[i + 1..]) == Elems(c[i + 1..]);
      }
    }
  }

  // The write pass; it fills the packet exactly.
  method WriteList(chans: Array<Codec.Channel>, data: array<byte>)
    requires chans.Valid()
    requires data.Length == BODY + SizeAll(Elems(chans.cells[..])) && data[..] == Fill(data.Length)
    modifies data
    ensures data[..] == ChannelList(Elems(chans.cells[..]))
  {
    hide Codec.Size, Codec.Encode, Header, Fill;
    ghost var c := chans.cells[..];
    var ptr: nat := WriteHeader(data, LIST_CHANNELS, chans.usedSlots);
    assert c[0..] == c;
    for i := 0 to chans.cells.Length
      invariant chans.cells[..] == c
      invariant ptr <= data.Length && ptr + SizeAll(Elems(c[i..])) == data.Length
      invariant data[..ptr] + EncodeAll(Elems(c[i..])) == ChannelList(Elems(c))
    {
      ElemsStep(c, i);
      if chans.cells[i].Some? {
        AllStep(c[i].value, Elems(c[i + 1..]));
        ghost var done := data[..ptr];
        var size := Codec.ChannelToData(chans.cells[i].value, data, ptr);
        ptr := ptr + size;
        assert data[..ptr] == done + Codec.Encode(c[i].value);
      } else {
        assert [] + Elems(c[i + 1..]) == Elems(c[i + 1..]);
      }
    }
    assert Elems(c[chans.cells.Length..]) == [];
    assert data[..ptr] + [] == data[..ptr] == data[..];
  }

  // s_resp_chans
  method RespChans(pl: Sender.Player, chans: Array<Codec.Channel>)
    requires pl.Valid() && chans.Valid()
    modifies pl`f0Counter, pl.packets, pl.packets.nodes
    ensures pl.Valid()
    ensures pl.State() == Protocol.Enqueue(old(pl.State()),
              Sender.Template(Sender.Addressed(ChannelList(old(Elems(chans.cells[..]))), pl.privateId, pl.publicId)))
  {
    hide PacketTools.Accepts, Sender.Decode, Sender.Template, Sender.Addressed, Elems, EncodeAll, Header, FieldAt;
    var size := SizeOfList(chans);
    var data := new byte[size](_ => 0);
    assert data[..] == Fill(size);
    ghost var live := Elems(chans.cells[..]);
    WriteList(chans, data);
    assert pl.Valid() && pl.State() == old(pl.State());
    ZeroVersion(LIST_CHANNELS, |live|, EncodeAll(live));
    pl.SendControl(data);
  }

  // ---- Players ----

  // What player_to_data reads of a player.
  datatype Player = Player(publicId: nat, chanId: nat, privileges: nat, globalFlags: nat, attributes: nat,
      name: seq<byte>)

  function Fields(p: Player): (s: seq<byte>)
    ensures |s| == 14
  {
    ToLe(p.publicId, 4) + ToLe(p.chanId, 4) + ToLe(p.privileges, 2) + ToLe(p.globalFlags, 2) + ToLe(p.attributes, 2)
  }

  // The bytes player_to_data writes; those of the name's field it skips stay zero.
  function Written(p: Player): (s: seq<byte>)
    ensures |s| <= PLAYER_SIZE
  {
    Fields(p) + StaticBytes(p.name, NAME_SIZE)
  }

  function EncodePlayer(p: Player): (s: seq<byte>)
    ensures |s| == PLAYER_SIZE
  {
    Written(p) + Fill(PLAYER_SIZE - |Written(p)|)
  }

  function EncodePlayers(ps: seq<Player>): (s: seq<byte>)
    ensures |s| == PLAYER_SIZE * |ps|
  {
    if ps == [] then [] else EncodePlayers(ps[..|ps| - 1]) + EncodePlayer(ps[|ps| - 1])
  }

  function Page(ps: seq<Player>): (s: seq<byte>)
    requires |ps| <= PER_PAGE
    ensures |s| == BODY + PLAYER_SIZE * PER_PAGE
  {
    Header(LIST_PLAYERS, |ps|) + (EncodePlayers(ps) + Fill(PLAYER_SIZE * (PER_PAGE - |ps|)))
  }

  function PageLength(live: seq<Player>): (n: nat)
    ensures n <= |live| && n <= PER_PAGE && (live != [] ==> n > 0)
  {
    if PER_PAGE < |live| then PER_PAGE else |live|
  }

  function Pages(live: seq<Player>): seq<seq<Player>> {
    if live == [] then [] else [live[..PageLength(live)]] + Pages(live[PageLength(live)..])
  }

  function Flatten(pages: seq<seq<Player>>): seq<Player> {
    if pages == [] then [] else pages[0] + Flatten(pages[1..])
  }

  // The pages hold every player once, in order; they are as few as can be, and only the last
  // may not be full.
  lemma {:induction false} PagesConcatenate(live: seq<Player>)
    ensures var ps := Pages(live);
      && Flatten(ps) == live
      && |ps| == (|live| + 9) / 10
      && (forall i :: 0 <= i < |ps| ==> 0 < |ps[i]| <= 10)
      && (forall i :: 0 <= i < |ps| - 1 ==> |ps[i]| == 10)
  {
    if live == [] {
    } else {
      var n := PageLength(live);
      PagesConcatenate(live[n..]);
      assert live == live[..n] + live[n..];
      assert Pages(live)[1..] == Pages(live[n..]);
    }
  }

  // ---- What a page says ----

  datatype Seen = Seen(publicId: nat, chanId: nat, privileges: nat, globalFlags: nat, attributes: nat,
      name: Option<seq<byte>>)

  function ReadPlayer(s: seq<byte>, at: nat): Seen
    requires at + PLAYER_SIZE <= |s|
  {
    Seen(FieldAt(s, at, 4), FieldAt(s, at + 4, 4),
         FieldAt(s, at + 8, 2), FieldAt(s, at + 10, 2), FieldAt(s, at + 12, 2),
         ReadStatic(s, at + 14, NAME_SIZE))
  }

  predicate TypedPlayer(p: Player) {
    && p.publicId < 0x1_0000_0000 && p.chanId < 0x1_0000_0000
    && p.privileges < 0x1_0000 && p.globalFlags < 0x1_0000 && p.attributes < 0x1_0000
    && |p.name| <= NAME_SIZE && NulFree(p.name)
  }

  lemma Window<T>(s: seq<T>, at: nat, n: nat, i: nat, j: nat)
    requires at + n <= |s| && i <= j <= n
    ensures s[at..at + n][i..j] == s[at + i..at + j]
  {
    var w := s[at..at + n];
    assert forall k :: 0 <= k < j - i ==> w[i..j][k] == s[at + i + k];
  }

  lemma FieldSlices(p: Player, s: seq<byte>, at: nat)
    requires at + 14 <= |s| && s[at..at + 14] == Fields(p)
    ensures s[at..at + 4] == ToLe(p.publicId, 4) && s[at + 4..at + 8] == ToLe(p.chanId, 4)
    ensures s[at + 8..at + 10] == ToLe(p.privileges, 2) && s[at + 10..at + 12] == ToLe(p.globalFlags, 2)
    ensures s[at + 12..at + 14] == ToLe(p.attributes, 2)
  {
    hide ToLe;
    Window(s, at, 14, 0, 4);
    Window(s, at, 14, 4, 8);
    Window(s, at, 14, 8, 10);
    Window(s, at, 14, 10, 12);
    Window(s, at, 14, 12, 14);
  }

  lemma FieldsRead(p: Player, s: seq<byte>, at: nat)
    requires TypedPlayer(p) && at + 14 <= |s| && s[at..at + 14] == Fields(p)
    ensures FieldAt(s, at, 4) == p.publicId && FieldAt(s, at + 4, 4) == p.chanId
    ensures FieldAt(s, at + 8, 2) == p.privileges && FieldAt(s, at + 10, 2) == p.globalFlags
    ensures FieldAt(s, at + 12, 2) == p.attributes
  {
    hide ToLe, NulFree, FieldAt, Fields;
    FieldSlices(p, s, at);
    Codec.FieldReads32(s, at, p.publicId);
    Codec.FieldReads32(s, at + 4, p.chanId);
    Codec.FieldReads16(s, at + 8, p.privileges);
    Codec.FieldReads16(s, at + 10, p.globalFlags);
    Codec.FieldReads16(s, at + 12, p.attributes);
  }

  lemma EntryReads(p: Player, s: seq<byte>, at: nat)
    requires TypedPlayer(p) && at + PLAYER_SIZE <= |s| && s[at..at + PLAYER_SIZE] == EncodePlayer(p)
    ensures ReadPlayer(s, at) == Seen(p.publicId, p.chanId, p.privileges, p.globalFlags, p.attributes, Some(p.name))
  {
    hide TypedPlayer, EncodePlayer, FieldAt, Fields, ReadStatic;
    NameReads(p, s, at);
    FieldsRead(p, s, at);
  }

  lemma NameReads(p: Player, s: seq<byte>, at: nat)
    requires TypedPlayer(p) && at + PLAYER_SIZE <= |s| && s[at..at + PLAYER_SIZE] == EncodePlayer(p)
    ensures ReadStatic(s, at + 14, NAME_SIZE) == Some(p.name)
    ensures s[at..at + 14] == Fields(p)
  {
    hide Fields, ReadStatic, NulFree;
    var e := s[at..at + PLAYER_SIZE];
    assert StaticBytes(p.name, NAME_SIZE) == [|p.name|] + p.name;
    assert e == Fields(p) + [|p.name|] + p.name + Fill(PLAYER_SIZE - |Written(p)|);
    Window(s, at, PLAYER_SIZE, 0, 14);
    Window(s, at, PLAYER_SIZE, 15, 15 + |p.name|);
    assert s[at + 14] == e[14];
    assert e[15..15 + |p.name|] == p.name;
    StoredReadsBack(s, at + 14, p.name, NAME_SIZE);
  }

  lemma {:induction false} EntryAt(ps: seq<Player>, k: nat)
    requires k < |ps|
    ensures EncodePlayers(ps)[PLAYER_SIZE * k..PLAYER_SIZE * (k + 1)] == EncodePlayer(ps[k])
    decreases |ps|
  {
    hide EncodePlayer;
    var front, e := EncodePlayers(ps[..|ps| - 1]), EncodePlayer(ps[|ps| - 1]);
    if k < |ps| - 1 {
      EntryAt(ps[..|ps| - 1], k);
      assert (front + e)[PLAYER_SIZE * k..PLAYER_SIZE * (k + 1)] == front[PLAYER_SIZE * k..PLAYER_SIZE * (k + 1)];
    }
  }

  // A page as it is queued names as many players as it holds, and each of them is read back
  // where the reader looks for it.
  lemma PageArrives(ps: seq<Player>, privateId: nat, publicId: nat, k: nat)
    requires k < |ps| <= PER_PAGE && TypedPlayer(ps[k])
    ensures var p := Sender.Template(Sender.Addressed(Page(ps), privateId, publicId));
      && |p| == 468 && FieldAt(p, 0, 2) == 0xBEF0 && FieldAt(p, 2, 2) == 7 && FieldAt(p, 24, 4) == |ps|
      && ReadPlayer(p, 28 + 44 * k)
           == Seen(ps[k].publicId, ps[k].chanId, ps[k].privileges, ps[k].globalFlags, ps[k].attributes,
               Some(ps[k].name))
  {
    hide EncodePlayer, ReadPlayer, FieldAt, TypedPlayer;
    var body := EncodePlayers(ps) + Fill(PLAYER_SIZE * (PER_PAGE - |ps|));
    BodyKept(Page(ps), LIST_PLAYERS, |ps|, body, privateId, publicId);
    var p := Sender.Template(Sender.Addressed(Page(ps), privateId, publicId));
    var at := PLAYER_SIZE * k;
    EntryAt(ps, k);
    assert p[BODY + at..BODY + at + PLAYER_SIZE] == p[BODY..][at..at + PLAYER_SIZE]
        == EncodePlayers(ps)[at..at + PLAYER_SIZE];
    EntryReads(ps[k], p, BODY + at);
  }

  // ---- Queueing the pages ----

  function Bodies(live: seq<Player>, privateId: nat, publicId: nat): seq<seq<byte>>
    decreases |live|
  {
    if live == [] then []
    else
      var n := PageLength(live);
      [Sender.Template(Sender.Addressed(Page(live[..n]), privateId, publicId))] + Bodies(live[n..], privateId, publicId)
  }

  lemma {:induction false} BodiesArePages(live: seq<Player>, privateId: nat, publicId: nat)
    ensures var bs, ps := Bodies(live, privateId, publicId), Pages(live);
      |bs| == |ps| && forall i :: 0 <= i < |ps| ==>
        |ps[i]| <= PER_PAGE && bs[i] == Sender.Template(Sender.Addressed(Page(ps[i]), privateId, publicId))
    decreases |live|
  {
    hide Page, Sender.Template, Sender.Addressed;
    if live != [] {
      BodiesArePages(live[PageLength(live)..], privateId, publicId);
    }
  }

  function EnqueueAll(s: Protocol.Session, bodies: seq<seq<byte>>): Protocol.Session
    decreases |bodies|
  {
    if bodies == [] then s else EnqueueAll(Protocol.Enqueue(s, bodies[0]), bodies[1..])
  }

  lemma ModuloShift(counter: nat, i: nat)
    requires i > 0
    ensures ((counter + 1) % Protocol.COUNTERS + (i - 1)) % Protocol.COUNTERS == (counter + i) % Protocol.COUNTERS
  {
  }

  // Consecutive counters, in order, behind what was queued before.
  ghost predicate QueuedBehind(s: Protocol.Session, s': Protocol.Session, bodies: seq<seq<byte>>) {
    && s.queue <= s'.queue && |s'.queue| == |s.queue| + |bodies|
    && s'.counter == (s.counter + |bodies|) % Protocol.COUNTERS
    && forall i :: 0 <= i < |bodies| ==>
         s'.queue[|s.queue| + i].packet == Protocol.Packet((s.counter + i) % Protocol.COUNTERS, 0, bodies[i])
  }

  lemma OneMoreBehind(s: Protocol.Session, s': Protocol.Session, bodies: seq<seq<byte>>)
    requires bodies != [] && s.counter < Protocol.COUNTERS
    requires QueuedBehind(Protocol.Enqueue(s, bodies[0]), s', bodies[1..])
    ensures QueuedBehind(s, s', bodies)
  {
    var t := Protocol.Enqueue(s, bodies[0]);
    assert s'.queue[|s.queue|] == t.queue[|s.queue|];
    forall i | 0 < i < |bodies|
      ensures s'.queue[|s.queue| + i].packet == Protocol.Packet((s.counter + i) % Protocol.COUNTERS, 0, bodies[i])
    {
      var k := i - 1;
      assert s'.queue[|t.queue| + k].packet
          == Protocol.Packet((t.counter + k) % Protocol.COUNTERS, 0, bodies[1..][k]);
      ModuloShift(s.counter, i);
    }
    ModuloShift(s.counter, |bodies|);
  }

  lemma {:induction false} EnqueueAllQueues(s: Protocol.Session, bodies: seq<seq<byte>>)
    requires s.counter < Protocol.COUNTERS
    ensures QueuedBehind(s, EnqueueAll(s, bodies), bodies)
    decreases |bodies|
  {
    if bodies == [] {
    } else {
      EnqueueAllQueues(Protocol.Enqueue(s, bodies[0]), bodies[1..]);
      OneMoreBehind(s, EnqueueAll(s, bodies), bodies);
    }
  }

  // player_to_data
  method PlayerToData(p: Player, data: array<byte>, at: nat) returns (size: nat)
    requires at + PLAYER_SIZE <= data.Length
    modifies data
    ensures data[..] == Overwrite(old(data[..]), at, Written(p))
    ensures size == PLAYER_SIZE
  {
    hide ToLe, Overwrite, StaticBytes;
    ghost var s := data[..];
    var ptr := WriteLe(data, at, p.publicId, 4);
    ghost var w := ToLe(p.publicId, 4);
    ptr := WriteLe(data, ptr, p.chanId, 4);
    OverwriteTwice(s, at, w, ToLe(p.chanId, 4));
    w := w + ToLe(p.chanId, 4);
    ptr := WriteLe(data, ptr, p.privileges, 2);
    OverwriteTwice(s, at, w, ToLe(p.privileges, 2));
    w := w + ToLe(p.privileges, 2);
    ptr := WriteLe(data, ptr, p.globalFlags, 2);
    OverwriteTwice(s, at, w, ToLe(p.globalFlags, 2));
    w := w + ToLe(p.globalFlags, 2);
    ptr := WriteLe(data, ptr, p.attributes, 2);
    OverwriteTwice(s, at, w, ToLe(p.attributes, 2));
    w := w + ToLe(p.attributes, 2);
    ptr := WStaticString(data, ptr, p.name, NAME_SIZE);
    OverwriteTwice(s, at, w, StaticBytes(p.name, NAME_SIZE));
    assert ptr - at == PLAYER_SIZE;
    size := PLAYER_SIZE;
  }

  lemma PutIntoZeros(pre: seq<byte>, n: nat, e: seq<byte>, k: nat)
    requires |e| <= k <= n
    ensures Overwrite(pre + Fill(n), |pre|, e) == pre + (e + Fill(k - |e|)) + Fill(n - k)
  {
  }

  // One page of s_resp_players, in a buffer of its own.
  method BuildPage(players: Array<Player>, left: nat) returns (data: array<byte>)
    requires players.Valid() && 0 < left <= players.usedSlots
    ensures fresh(data)
    ensures var rest := Elems(players.cells[..])[players.usedSlots - left..];
      data[..] == Page(rest[..PageLength(rest)])
  {
    hide Header, EncodePlayer, Fill, Elems;
    ghost var live := Elems(players.cells[..]);
    ghost var rest := live[players.usedSlots - left..];
    ghost var window := rest[..PageLength(rest)];
    data := new byte[BODY + PER_PAGE * PLAYER_SIZE](_ => 0);
    assert data[..] == Fill(data.Length) by {
      AllZero(data[..]);
    }
    var ptr := WriteHeader(data, LIST_PLAYERS, if PER_PAGE < left then PER_PAGE else left);
    var pls := new Option<Player>[PER_PAGE](_ => None);
    var copied := players.GetNElemsStartAt(PER_PAGE, players.usedSlots - left, pls);
    WindowIsPage(live, left);
    WriteEntries(data, ptr, pls, copied, window);
  }

  // The window the slot array copies is the next page.
  lemma WindowIsPage(live: seq<Player>, left: nat)
    requires 0 < left <= |live|
    ensures var start, rest := |live| - left, live[|live| - left..];
      rest[..PageLength(rest)] == live[start..if start + PER_PAGE < |live| then start + PER_PAGE else |live|]
  {
  }

  lemma AllZero(s: seq<byte>)
    requires forall i :: 0 <= i < |s| ==> s[i] == 0
    ensures s == Fill(|s|)
  {
  }

  // The loop that dumps the players of one page behind the header.
  method WriteEntries(data: array<byte>, start: nat, pls: array<Option<Player>>, copied: nat, ghost window: seq<Player>)
    requires data.Length == BODY + PER_PAGE * PLAYER_SIZE && start == BODY
    requires copied == |window| <= PER_PAGE == pls.Length
    requires forall k :: 0 <= k < copied ==> pls[k] == Some(window[k])
    requires data[..] == Header(LIST_PLAYERS, copied) + Fill(data.Length - BODY)
    modifies data
    ensures data[..] == Page(window)
  {
    hide Header, EncodePlayers, Fill, Written, Overwrite;
    ghost var header := Header(LIST_PLAYERS, copied);
    var ptr := start;
    FirstEntry(header, window);
    for i := 0 to copied
      invariant ptr == BODY + PLAYER_SIZE * i
      invariant data[..] == Partial(header, window, i)
    {
      ghost var before := data[..];
      var size := PlayerToData(pls[i].value, data, ptr);
      EntryStep(header, window, i, before, data[..]);
      ptr := ptr + size;
    }
    LastEntry(header, window);
  }

  // The page after i of its players have been written.
  ghost function Partial(header: seq<byte>, window: seq<Player>, i: nat): seq<byte>
    requires i <= |window| <= PER_PAGE
  {
    header + EncodePlayers(window[..i]) + Fill(PLAYER_SIZE * (PER_PAGE - i))
  }

  lemma FirstEntry(header: seq<byte>, window: seq<Player>)
    requires |window| <= PER_PAGE
    ensures Partial(header, window, 0) == header + Fill(PLAYER_SIZE * PER_PAGE)
  {
  }

  lemma LastEntry(header: seq<byte>, window: seq<Player>)
    requires |window| <= PER_PAGE && header == Header(LIST_PLAYERS, |window|)
    ensures Partial(header, window, |window|) == Page(window)
  {
    hide EncodePlayers, Fill, Header;
    assert window[..|window|] == window;
    assert Partial(header, window, |window|)
        == header + (EncodePlayers(window) + Fill(PLAYER_SIZE * (PER_PAGE - |window|)));
  }

  lemma EntryStep(header: seq<byte>, window: seq<Player>, i: nat, before: seq<byte>, after: seq<byte>)
    requires i < |window| <= PER_PAGE && before == Partial(header, window, i)
    requires after == Overwrite(before, |header| + PLAYER_SIZE * i, Written(window[i]))
    ensures after == Partial(header, window, i + 1)
  {
    hide Written, Fill, Overwrite, EncodePlayers;
    ghost var pre := header + EncodePlayers(window[..i]);
    PutIntoZeros(pre, PLAYER_SIZE * (PER_PAGE - i), Written(window[i]), PLAYER_SIZE);
    NextEntry(window, i);
    assert pre + EncodePlayer(window[i]) == header + EncodePlayers(window[..i + 1]);
  }

  lemma NextEntry(ps: seq<Player>, i: nat)
    requires i < |ps|
    ensures EncodePlayers(ps[..i + 1]) == EncodePlayers(ps[..i]) + EncodePlayer(ps[i])
  {
    assert ps[..i + 1][..i] == ps[..i];
  }

  lemma PageVersion(ps: seq<Player>)
    requires |ps| <= PER_PAGE
    ensures |Page(ps)| >= Sender.HEADER && FieldAt(Page(ps), Sender.VERSION_AT, 2) == 0
  {
    hide FieldAt;
    ZeroVersion(LIST_PLAYERS, |ps|, EncodePlayers(ps) + Fill(PLAYER_SIZE * (PER_PAGE - |ps|)));
  }

  // The players still to be sent when `left` of them are, and the page to send next.
  function Rest(live: seq<Player>, left: nat): seq<Player>
    requires left <= |live|
  {
    live[|live| - left..]
  }

  function NextBody(live: seq<Player>, left: nat, privateId: nat, publicId: nat): seq<byte>
    requires left <= |live|
  {
    Sender.Template(Sender.Addressed(Page(Rest(live, left)[..PageLength(Rest(live, left))]), privateId, publicId))
  }

  function LeftAfter(left: nat): (r: nat)
    ensures left > 0 ==> r < left
  {
    left - if PER_PAGE < left then PER_PAGE else left
  }

  lemma NextPage(s: Protocol.Session, live: seq<Player>, left: nat, privateId: nat, publicId: nat)
    requires 0 < left <= |live|
    ensures EnqueueAll(s, Bodies(Rest(live, left), privateId, publicId))
         == EnqueueAll(Protocol.Enqueue(s, NextBody(live, left, privateId, publicId)),
                       Bodies(Rest(live, LeftAfter(left)), privateId, publicId))
  {
    hide Page, Sender.Template, Sender.Addressed, Protocol.Enqueue;
    var rest := Rest(live, left);
    var n := PageLength(rest);
    assert rest[n..] == Rest(live, LeftAfter(left));
    var body := NextBody(live, left, privateId, publicId);
    assert Bodies(rest, privateId, publicId) == [body] + Bodies(rest[n..], privateId, publicId);
    assert ([body] + Bodies(rest[n..], privateId, publicId))[1..] == Bodies(rest[n..], privateId, publicId);
  }

  lemma FirstAndLastPage(s: Protocol.Session, live: seq<Player>, privateId: nat, publicId: nat)
    ensures Rest(live, |live|) == live
    ensures EnqueueAll(s, Bodies(Rest(live, 0), privateId, publicId)) == s
  {
  }

  lemma AllLive(players: Array<Player>)
    requires players.Valid()
    ensures players.usedSlots == |Elems(players.cells[..])|
  {
  }

  // One round of the loop of s_resp_players: the next page is built and queued.
  method QueuePage(pl: Sender.Player, players: Array<Player>, left: nat)
    requires pl.Valid() && players.Valid() && 0 < left <= players.usedSlots
    modifies pl`f0Counter, pl.packets, pl.packets.nodes
    ensures pl.Valid()
    ensures players.Valid() && players.cells[..] == old(players.cells[..])
    ensures var body := NextBody(Elems(players.cells[..]), left, pl.privateId, pl.publicId);
      pl.State() == Protocol.Enqueue(old(pl.State()), body)
    ensures |pl.packets.nodes| > 0 && pl.packets.nodes[..|pl.packets.nodes| - 1] == old(pl.packets.nodes)
    ensures fresh(pl.packets.nodes[|pl.packets.nodes| - 1])
  {
    hide Page, PacketTools.Accepts, Sender.Decode, Sender.Template, Sender.Addressed, Protocol.Enqueue, FieldAt, Elems;
    ghost var rest := Rest(Elems(players.cells[..]), left);
    var data := BuildPage(players, left);
    PageVersion(rest[..PageLength(rest)]);
    pl.SendControl(data);
  }

  // s_resp_players
  method RespPlayers(pl: Sender.Player, players: Array<Player>)
    requires pl.Valid() && players.Valid()
    modifies pl`f0Counter, pl.packets, pl.packets.nodes
    ensures pl.Valid()
    ensures pl.State() == EnqueueAll(old(pl.State()), Bodies(old(Elems(players.cells[..])), pl.privateId, pl.publicId))
  {
    hide *;
    ghost var live := Elems(players.cells[..]);
    ghost var goal := EnqueueAll(pl.State(), Bodies(live, pl.privateId, pl.publicId));
    var left: nat := players.usedSlots;
    AllLive(players);
    FirstAndLastPage(pl.State(), live, pl.privateId, pl.publicId);
    while left > 0
      invariant left <= |live| == players.usedSlots && Elems(players.cells[..]) == live
      invariant pl.Valid() && players.Valid()
      invariant old(pl.packets.nodes) <= pl.packets.nodes
      invariant forall i :: |old(pl.packets.nodes)| <= i < |pl.packets.nodes| ==> fresh(pl.packets.nodes[i])
      invariant EnqueueAll(pl.State(), Bodies(Rest(live, left), pl.privateId, pl.publicId)) == goal
    {
      NextPage(pl.State(), live, left, pl.privateId, pl.publicId);
      QueuePage(pl, players, left);
      left := LeftAfter(left);
    }
    FirstAndLastPage(pl.State(), live, pl.privateId, pl.publicId);
  }
}
