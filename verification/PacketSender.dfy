/** The per-player code of the protocol, on packet buffers in the linked queue:
    packet_sender.c, send_to of server_stat.c and handle_ack_type_packet of main_serv.c. */
module PacketSender {
  import opened Wrappers
  import opened Bytes
  import opened PacketTools
  import opened Queue
  import opened Protocol

  const COUNTER_AT: nat := 12
  const VERSION_AT: nat := 16
  const SUM_AT: nat := 20
  const HEADER: nat := 24

  // Where stamping, resending and sealing write.
  predicate Volatile(k: int) {
    COUNTER_AT <= k < VERSION_AT + 2 || SUM_AT <= k < SUM_AT + 4
  }

  // The packet without what they change.
  function Template(p: seq<byte>): (t: seq<byte>)
    ensures |t| == |p| && forall k :: 0 <= k < |p| ==> t[k] == if Volatile(k) then 0 else p[k]
  {
    seq(|p|, k requires 0 <= k < |p| => if Volatile(k) then 0 else p[k])
  }

  // The protocol's view of a packet buffer.
  function Decode(p: seq<byte>): Packet
    requires |p| >= HEADER
  {
    Packet(FieldAt(p, COUNTER_AT, 4), FieldAt(p, VERSION_AT, 2), Template(p))
  }

  lemma PowTable()
    ensures Pow(256, 2) == VERSIONS && Pow(256, 4) == COUNTERS
  {
  }

  // Where the protocol's fields are in the header, in bytes.
  lemma HeaderLayout(p: seq<byte>, k: nat)
    requires |p| >= 24 && k < |p|
    ensures Decode(p).counter == FieldAt(p, 12, 4) && Decode(p).version == FieldAt(p, 16, 2)
    ensures |Decode(p).body| == |p|
    ensures Decode(p).body[k] == if 12 <= k < 18 || 20 <= k < 24 then 0 else p[k]
  {
  }

  // Sealing is invisible to the protocol's view.
  lemma SealKeepsDecode(p: seq<byte>)
    requires |p| >= HEADER
    ensures Decode(Seal(p, SUM_AT)) == Decode(p)
  {
    hide Accepts, Sum;
    FieldKept(p, SUM_AT, Sum(p, SUM_AT), COUNTER_AT, 4);
    FieldKept(p, SUM_AT, Sum(p, SUM_AT), VERSION_AT, 2);
    assert Template(Seal(p, SUM_AT)) == Template(p);
  }

  lemma VersionWritten(p: seq<byte>, version: nat)
    requires |p| >= HEADER && version < VERSIONS
    ensures Decode(Overwrite(p, VERSION_AT, ToLe(version, 2))) == Decode(p).(version := version)
  {
    PowTable();
    FieldWritten(p, VERSION_AT, version, 2);
    FieldKept(p, VERSION_AT, ToLe(version, 2), COUNTER_AT, 4);
    assert Template(Overwrite(p, VERSION_AT, ToLe(version, 2))) == Template(p);
  }

  lemma CounterWritten(p: seq<byte>, counter: nat)
    requires |p| >= HEADER && counter < COUNTERS
    ensures Decode(Overwrite(p, COUNTER_AT, ToLe(counter, 4))) == Decode(p).(counter := counter)
  {
    PowTable();
    FieldWritten(p, COUNTER_AT, counter, 4);
    FieldKept(p, COUNTER_AT, ToLe(counter, 4), VERSION_AT, 2);
    assert Template(Overwrite(p, COUNTER_AT, ToLe(counter, 4))) == Template(p);
  }

  // The protocol's view loses nothing: accepted packets that look alike are alike.
  lemma DecodeIsInjective(p: seq<byte>, q: seq<byte>)
    requires |p| >= HEADER && |q| >= HEADER
    requires Accepts(p, SUM_AT) && Accepts(q, SUM_AT)
    requires Decode(p) == Decode(q)
    ensures p == q
  {
    var t, u := Template(p), Template(q);
    assert t == u && |p| == |q|;
    FieldDetermines(p, q, COUNTER_AT, 4);
    FieldDetermines(p, q, VERSION_AT, 2);
    forall k | 0 <= k < |p| && !(SUM_AT <= k < SUM_AT + 4) ensures p[k] == q[k] {
      if !Volatile(k) {
        assert t[k] == u[k];
      }
    }
    SealIgnoresOldSum(p, q, SUM_AT);
    AcceptsExactlySealed(p, SUM_AT);
    AcceptsExactlySealed(q, SUM_AT);
  }

  // A queued packet: sealed, and as long as its entry says.
  predicate Sealed(e: Entry<seq<byte>>) {
    |e.elem| == e.size && e.size >= HEADER && Accepts(e.elem, SUM_AT)
  }

  function View(e: Entry<seq<byte>>): Pending
    requires Sealed(e)
  {
    Pending(Decode(e.elem), e.lastSent)
  }

  ghost predicate AllSealed(c: seq<Entry<seq<byte>>>) {
    forall i :: 0 <= i < |c| ==> Sealed(c[i])
  }

  function Views(c: seq<Entry<seq<byte>>>): (q: seq<Pending>)
    requires AllSealed(c)
    ensures |q| == |c| && forall i :: 0 <= i < |c| ==> q[i] == View(c[i])
  {
    seq(|c|, i requires 0 <= i < |c| => View(c[i]))
  }

  lemma ViewsAppend(c: seq<Entry<seq<byte>>>, e: Entry<seq<byte>>)
    requires AllSealed(c) && Sealed(e)
    ensures AllSealed(c + [e]) && Views(c + [e]) == Views(c) + [View(e)]
  {
    hide Accepts, Sum;
  }

  lemma ViewsCons(e: Entry<seq<byte>>, c: seq<Entry<seq<byte>>>)
    requires AllSealed(c) && Sealed(e)
    ensures AllSealed([e] + c) && Views([e] + c) == [View(e)] + Views(c)
  {
    hide Accepts, Sum;
  }

  lemma ViewsTail(c: seq<Entry<seq<byte>>>)
    requires AllSealed(c) && c != []
    ensures AllSealed(c[1..]) && Views(c[1..]) == Views(c)[1..]
  {
    hide Accepts, Sum;
  }

  lemma ViewsHead(c: seq<Entry<seq<byte>>>)
    requires AllSealed(c) && c != []
    ensures Sealed(c[0]) && Views(c) != [] && Views(c)[0] == View(c[0])
  {
    hide Accepts, Sum;
  }

  // The packet as it is stamped for one recipient: his ids, and the counter of his session.
  function Addressed(p: seq<byte>, privateId: nat, publicId: nat): (r: seq<byte>)
    requires |p| >= HEADER
    ensures |r| == |p|
  {
    Overwrite(Overwrite(p, 4, ToLe(privateId, 4)), 8, ToLe(publicId, 4))
  }

  // The packet as it is queued for one recipient has his private identifier at byte 4 and his
  // public one at byte 8; the rest of the header that is not stamped, and the body, are as given.
  lemma AddressedFields(p: seq<byte>, privateId: nat, publicId: nat, k: nat)
    requires |p| >= 24 && privateId < 0x1_0000_0000 && publicId < 0x1_0000_0000
    requires k < 4 || 18 <= k < 20 || 24 <= k < |p|
    ensures var q := Template(Addressed(p, privateId, publicId));
      FieldAt(q, 4, 4) == privateId && FieldAt(q, 8, 4) == publicId && |q| == |p| && q[k] == p[k]
  {
    var p1 := Overwrite(p, 4, ToLe(privateId, 4));
    var a, q := Addressed(p, privateId, publicId), Template(Addressed(p, privateId, publicId));
    PowTable();
    FieldWritten(p, 4, privateId, 4);
    FieldKept(p1, 8, ToLe(publicId, 4), 4, 4);
    FieldWritten(p1, 8, publicId, 4);
    hide ToLe, FromLe, Overwrite;
    assert q[4..8] == a[4..8] && q[8..12] == a[8..12];
  }

  // What every recipient of a packet gets alike.
  function Common(p: seq<byte>): (r: seq<byte>)
    requires |p| >= HEADER
    ensures |r| == |p| && forall k :: 0 <= k < |p| ==> r[k] == if 4 <= k < COUNTER_AT || Volatile(k) then 0 else p[k]
  {
    seq(|p|, k requires 0 <= k < |p| => if 4 <= k < COUNTER_AT || Volatile(k) then 0 else p[k])
  }

  // A packet stamped for one recipient can be stamped for the next.
  lemma CommonDecides(p: seq<byte>, q: seq<byte>, privateId: nat, publicId: nat)
    requires |p| == |q| && |p| >= HEADER && Common(p) == Common(q)
    ensures Template(Addressed(p, privateId, publicId)) == Template(Addressed(q, privateId, publicId))
  {
    var a, b := Addressed(p, privateId, publicId), Addressed(q, privateId, publicId);
    forall k | 0 <= k < |p| ensures Template(a)[k] == Template(b)[k] {
      assert Common(p)[k] == Common(q)[k];
      if 4 <= k < 8 {
        assert a[k] == Overwrite(p, 4, ToLe(privateId, 4))[4..8][k - 4];
        assert b[k] == Overwrite(q, 4, ToLe(privateId, 4))[4..8][k - 4];
      } else if 8 <= k < 12 {
        assert a[k] == a[8..12][k - 8] && b[k] == b[8..12][k - 8];
      }
    }
  }

  lemma StampKeepsCommon(p: seq<byte>, privateId: nat, publicId: nat, counter: nat)
    requires |p| >= HEADER
    ensures Common(Seal(Overwrite(Addressed(p, privateId, publicId), COUNTER_AT, ToLe(counter, 4)), SUM_AT))
        == Common(p)
  {
    hide Sum, ToLe;
  }

  // The resent packet: next version, sealed again.
  function Resealed(p: seq<byte>): (r: seq<byte>)
    requires |p| >= HEADER
    ensures |r| == |p|
  {
    Seal(Overwrite(p, VERSION_AT, ToLe((FieldAt(p, VERSION_AT, 2) + 1) % VERSIONS, 2)), SUM_AT)
  }

  // After the bump the packet passes the check again and differs, for the protocol, in its
  // version only.
  lemma ResealedIsBumped(p: seq<byte>)
    requires |p| >= HEADER
    ensures Accepts(Resealed(p), SUM_AT)
    ensures Decode(Resealed(p)) == Bumped(Decode(p))
  {
    hide Accepts, Sum;
    var version := (Decode(p).version + 1) % VERSIONS;
    var q := Overwrite(p, VERSION_AT, ToLe(version, 2));
    VersionWritten(p, version);
    SealKeepsDecode(q);
    AcceptsExactlySealed(q, SUM_AT);
  }

  lemma AddressedDecodes(p: seq<byte>, privateId: nat, publicId: nat, counter: nat)
    requires |p| >= HEADER && FieldAt(p, VERSION_AT, 2) == 0 && counter < COUNTERS
    ensures var q := Overwrite(Addressed(p, privateId, publicId), COUNTER_AT, ToLe(counter, 4));
      && Accepts(Seal(q, SUM_AT), SUM_AT)
      && Decode(Seal(q, SUM_AT)) == Packet(counter, 0, Template(Addressed(p, privateId, publicId)))
      && FieldAt(Seal(q, SUM_AT), VERSION_AT, 2) == 0
  {
    hide Accepts, Sum;
    var p1 := Overwrite(p, 4, ToLe(privateId, 4));
    FieldKept(p, 4, ToLe(privateId, 4), VERSION_AT, 2);
    FieldKept(p1, 8, ToLe(publicId, 4), VERSION_AT, 2);
    CounterWritten(Addressed(p, privateId, publicId), counter);
    var q := Overwrite(Addressed(p, privateId, publicId), COUNTER_AT, ToLe(counter, 4));
    SealKeepsDecode(q);
    AcceptsExactlySealed(q, SUM_AT);
  }

  // The part of struct player the sender works on. The phase is the list the player is on:
  // players, leaving_players, or neither.
  class Player {
    const packets: Queue<seq<byte>>
    const publicId: nat
    const privateId: nat
    var f0Counter: nat
    var lastPing: int
    ghost var phase: Phase

    ghost predicate Valid()
      reads this, packets, packets.nodes
    {
      packets.Valid() && AllSealed(packets.Contents()) && f0Counter < COUNTERS
    }

    ghost function State(): Session
      requires Valid()
      reads this, packets, packets.nodes
    {
      Session(phase, Views(packets.Contents()), f0Counter, lastPing)
    }

    // new_player
    constructor (publicId: nat, privateId: nat, now: int)
      ensures Valid() && State() == Start(now).session
      ensures this.publicId == publicId && this.privateId == privateId
      ensures fresh(packets)
    {
      packets := new Queue<seq<byte>>();
      this.publicId, this.privateId := publicId, privateId;
      f0Counter, lastPing, phase := 1, now, Active;
    }

    // send_to: queue a copy, so the caller may go on using its buffer.
    method SendTo(buf: array<byte>)
      requires Valid() && buf.Length >= HEADER && Accepts(buf[..], SUM_AT)
      modifies packets, packets.nodes
      ensures Valid()
      ensures State() == old(State()).(queue := old(State().queue) + [Pending(Decode(buf[..]), 0)])
      ensures |packets.nodes| > 0 && packets.nodes[..|packets.nodes| - 1] == old(packets.nodes)
      ensures fresh(packets.nodes[|packets.nodes| - 1])
    {
      hide Accepts, Sum;
      ghost var before := packets.Contents();
      packets.AddToQueue(buf[..], buf.Length);
      ViewsAppend(before, Entry(buf[..], buf.Length, 0));
    }

    // The tail every notification builder shares: stamp ids and counter, seal, queue, count.
    method SendControl(data: array<byte>)
      requires Valid() && data.Length >= HEADER && FieldAt(data[..], VERSION_AT, 2) == 0
      modifies this`f0Counter, packets, packets.nodes, data
      ensures Valid()
      ensures State() == Enqueue(old(State()), Template(Addressed(old(data[..]), privateId, publicId)))
      ensures FieldAt(data[..], VERSION_AT, 2) == 0 && Common(data[..]) == Common(old(data[..]))
      ensures |packets.nodes| > 0 && packets.nodes[..|packets.nodes| - 1] == old(packets.nodes)
      ensures fresh(packets.nodes[|packets.nodes| - 1])
    {
      hide *;
      StampAndSeal(data);
      SendTo(data);
      CountPacket();
      EnqueueParts(old(State()), Template(Addressed(old(data[..]), privateId, publicId)));
    }

    static lemma EnqueueParts(s: Session, body: seq<byte>)
      ensures Enqueue(s, body)
          == s.(queue := s.queue + [Pending(Packet(s.counter, 0, body), 0)]).(counter := (s.counter + 1) % COUNTERS)
    {
    }

    method StampAndSeal(data: array<byte>)
      requires Valid() && data.Length >= HEADER && FieldAt(data[..], VERSION_AT, 2) == 0
      modifies data
      ensures Valid() && State() == old(State()) && Accepts(data[..], SUM_AT)
      ensures Decode(data[..]) == Packet(State().counter, 0, Template(Addressed(old(data[..]), privateId, publicId)))
      ensures FieldAt(data[..], VERSION_AT, 2) == 0 && Common(data[..]) == Common(old(data[..]))
    {
      hide Accepts, Sum, Decode, Template, FieldAt, Overwrite, ToLe, Addressed, Seal, Views, AllSealed, Common;
      ghost var p := data[..];
      StampKeepsCommon(p, privateId, publicId, f0Counter);
      AddressedDecodes(p, privateId, publicId, f0Counter);
      Stamp(data, f0Counter);
      assert data[..data.Length] == data[..];
      PacketAddCrc(data, data.Length, SUM_AT);
      assert data[..] == data[..data.Length];
    }

    method CountPacket()
      requires Valid()
      modifies this`f0Counter
      ensures Valid() && State() == old(State()).(counter := (old(State()).counter + 1) % COUNTERS)
    {
      hide Accepts, Sum, Decode, Views, AllSealed;
      f0Counter := (f0Counter + 1) % COUNTERS;
    }

    method Stamp(data: array<byte>, counter: nat)
      requires data.Length >= HEADER
      modifies data
      ensures data[..] == Overwrite(Addressed(old(data[..]), privateId, publicId), COUNTER_AT, ToLe(counter, 4))
    {
      var ptr := WriteLe(data, 4, privateId, 4);
      ptr := WriteLe(data, ptr, publicId, 4);
      ptr := WriteLe(data, ptr, counter, 4);
    }

    // send_curr_packet: the head goes out; what stays queued gets the next version and a new seal.
    method SendCurrPacket() returns (wire: Option<seq<byte>>)
      requires Valid()
      modifies packets.nodes
      ensures Valid()
      ensures var q := old(State().queue);
        if q == [] then wire == None && State() == old(State())
        else
          && wire.Some? && |wire.value| >= HEADER
          && Accepts(wire.value, SUM_AT) && Decode(wire.value) == q[0].packet
          && State() == old(State()).(queue := [Pending(Bumped(q[0].packet), q[0].lastSent)] + q[1..])
    {
      hide *;
      var packet, size := PeekHead();
      if packet == None {
        return None;
      }
      wire := packet;
      var next := BumpAndSeal(packet.value, size);
      BumpedSealed(packets.Contents()[0], next);
      ReplaceHead(next);
    }

    // peek_at_queue and peek_at_size, as the protocol sees them.
    method PeekHead() returns (packet: Option<seq<byte>>, size: nat)
      requires Valid()
      ensures packet == None <==> State().queue == []
      ensures packet.Some? ==>
                && packets.Contents() != [] && var e := packets.Contents()[0];
                && Sealed(e) && |e.elem| == size && size >= HEADER && packet == Some(e.elem)
                && Accepts(e.elem, SUM_AT) && State().queue[0] == Pending(Decode(e.elem), e.lastSent)
    {
      hide Accepts, Sum, Decode, Views, AllSealed;
      if packets.Contents() != [] {
        ViewsHead(packets.Contents());
      }
      packet := packets.PeekAtQueue();
      size := packets.PeekAtSize();
    }

    static lemma BumpedSealed(e: Entry<seq<byte>>, next: seq<byte>)
      requires Sealed(e) && |e.elem| >= HEADER && next == Resealed(e.elem)
      ensures Sealed(e.(elem := next)) && |next| >= HEADER && Decode(next) == Bumped(Decode(e.elem))
    {
      hide Accepts, Sum, Decode, Resealed;
      ResealedIsBumped(e.elem);
    }

    method ReplaceHead(next: seq<byte>)
      requires Valid() && packets.Contents() != [] && Sealed(packets.Contents()[0].(elem := next))
      requires |next| >= HEADER
      modifies packets.nodes
      ensures Valid() && packets.nodes == old(packets.nodes)
      ensures var q := old(State()).queue;
        q != [] && State() == old(State()).(queue := [Pending(Decode(next), q[0].lastSent)] + q[1..])
    {
      hide Accepts, Sum, Decode;
      ghost var c := packets.Contents();
      ViewsTail(c);
      ViewsCons(c[0].(elem := next), c[1..]);
      packets.WriteHead(next);
    }

    // The two writes into the head's buffer after it was sent.
    static method BumpAndSeal(packet: seq<byte>, size: nat) returns (next: seq<byte>)
      requires |packet| == size && size >= HEADER
      ensures next == Resealed(packet)
    {
      hide Accepts, Sum;
      var buf := new byte[size](i requires 0 <= i < size => packet[i]);
      assert buf[..] == packet;
      var version, _ := ReadLe(buf, VERSION_AT, 2);
      var _ := WriteLe(buf, VERSION_AT, (version + 1) % VERSIONS, 2);
      assert buf[..size] == buf[..];
      PacketAddCrc(buf, size, SUM_AT);
      next := buf[..];
      assert next == buf[..size];
    }

    // handle_ack_type_packet, for the player the ids in the packet name: the head is popped
    // exactly when the protocol says so.
    method HandleAckPacket(data: array<byte>)
      requires Valid() && data.Length >= 16 && phase != Destroyed
      modifies packets, packets.nodes
      ensures Valid()
      ensures State() == HandleAck(old(State()), Ack(FieldAt(data[..], 12, 4), FieldAt(data[..], 2, 2)))
    {
      hide *;
      AckCases(Ack(FieldAt(data[..], 12, 4), FieldAt(data[..], 2, 2)));
      var ackVersion, _ := ReadLe(data, 2, 2);
      var ackCounter, _ := ReadLe(data, 12, 4);
      var matches := AckMatches(ackCounter, ackVersion);
      if matches {
        PopHead();
      }
    }

    lemma AckCases(a: Ack)
      requires Valid() && phase != Destroyed
      ensures HandleAck(State(), a) == if Matches(State(), a) then State().(queue := State().queue[1..]) else State()
      ensures Matches(State(), a) ==> State().queue != []
    {
    }

    // Its test, under the queue's lock.
    method AckMatches(ackCounter: nat, ackVersion: nat) returns (matches: bool)
      requires Valid()
      ensures matches == Matches(State(), Ack(ackCounter, ackVersion))
    {
      hide Accepts, Sum, Decode, Views, AllSealed;
      ghost var c := packets.Contents();
      var sent := packets.PeekAtQueue();
      if sent == None {
        return false;
      }
      ViewsHead(c);
      var sentCounter, sentVersion := ReadStamp(sent.value);
      return sentCounter == ackCounter && ackVersion <= sentVersion;
    }

    method PopHead()
      requires Valid() && State().queue != []
      modifies packets, packets.nodes
      ensures Valid() && State() == old(State()).(queue := old(State()).queue[1..])
    {
      hide Accepts, Sum, Decode, View;
      ViewsTail(packets.Contents());
      var _ := packets.GetFromQueue();
    }

    static method ReadStamp(packet: seq<byte>) returns (counter: nat, version: nat)
      requires |packet| >= HEADER
      ensures counter == Decode(packet).counter && version == Decode(packet).version
    {
      var buf := new byte[|packet|](i requires 0 <= i < |packet| => packet[i]);
      assert buf[..] == packet;
      var ptr: nat;
      counter, ptr := ReadLe(buf, COUNTER_AT, 4);
      version, ptr := ReadLe(buf, ptr, 2);
    }

    // Reading the head's time, as queue_get_time does it.
    method HeadTime() returns (t: Option<int>)
      requires Valid()
      ensures t == if State().queue == [] then None else Some(State().queue[0].lastSent)
    {
      hide Accepts, Sum, Decode, Views, AllSealed;
      ghost var c := packets.Contents();
      if c != [] {
        ViewsHead(c);
      }
      t := packets.QueueGetTime();
    }

    // The timeout test both loops of the sender thread make under the queue's lock.
    method SeemsTimedOut(now: int) returns (gone: bool)
      requires Valid() && State().queue != []
      ensures gone == TimedOut(State(), now)
      ensures gone <==> now - State().lastPing >= 11_000_000 || State().queue[0].packet.version > 50
    {
      hide Accepts, Sum, Decode, Views, AllSealed;
      ViewsHead(packets.Contents());
      var packet := packets.PeekAtQueue();
      var _, version := ReadStamp(packet.value);
      gone := (now - lastPing) / SECOND > SILENCE || version > MAX_VERSION;
    }

    // queue_update_time
    method StampHead(stamp: int)
      requires Valid() && State().queue != []
      modifies packets.nodes
      ensures Valid() && packets.nodes == old(packets.nodes)
      ensures var q := old(State()).queue;
        State() == old(State()).(queue := [q[0].(lastSent := stamp)] + q[1..])
    {
      hide Accepts, Sum, Decode;
      ghost var c := packets.Contents();
      assert Sealed(c[0].(lastSent := stamp));
      ViewsTail(c);
      ViewsCons(c[0].(lastSent := stamp), c[1..]);
      packets.QueueUpdateTime(stamp);
    }

    // The resend both loops share: stamp the head with a new clock reading and send it, if the
    // old stamp is due.
    method ResendIfDue(now: int, stamp: int) returns (wire: Option<seq<byte>>)
      requires Valid() && State().queue != []
      modifies packets.nodes
      ensures Valid()
      ensures var s := old(State());
        if Due(now, s.queue[0].lastSent) then
          && State() == Transmit(s, stamp)
          && wire.Some? && |wire.value| >= HEADER
          && Accepts(wire.value, SUM_AT) && Decode(wire.value) == s.queue[0].packet
        else State() == s && wire == None
    {
      hide *;
      ghost var s := State();
      var lastSent := HeadTime();
      wire := None;
      var due := HalfSecondPassed(now, lastSent.value);
      if due {
        TransmitParts(s, stamp);
        StampHead(stamp);
        wire := SendCurrPacket();
      }
    }

    // timersub, and the test on its two fields.
    static method HalfSecondPassed(now: int, lastSent: int) returns (due: bool)
      ensures due == Due(now, lastSent)
    {
      var sec, usec := (now - lastSent) / SECOND, (now - lastSent) % SECOND;
      due := sec > 0 || usec > RESEND;
    }

    static lemma TransmitParts(s: Session, stamp: int)
      requires s.queue != []
      ensures ([s.queue[0].(lastSent := stamp)] + s.queue[1..])[1..] == s.queue[1..]
      ensures Transmit(s, stamp) == s.(queue := [Pending(Bumped(s.queue[0].packet), stamp)] + s.queue[1..])
    {
    }

    // The list the player is on changes; nothing else does.
    ghost method MoveTo(p: Phase)
      requires Valid()
      modifies this`phase
      ensures Valid() && phase == p && State() == old(State()).(phase := p)
    {
      phase := p;
    }

    // packet_sender_thread, body of the loop over the active players. The notice is the packet
    // s_notify_player_left builds; remove_player then puts the player on the leaving list.
    method ActivePass(now: int, stamp: int, notice: array<byte>) returns (wire: Option<seq<byte>>)
      requires Valid() && State().phase == Active
      requires notice.Length >= HEADER && FieldAt(notice[..], VERSION_AT, 2) == 0
      modifies this`f0Counter, this`phase, packets, packets.nodes, notice
      ensures Valid()
      ensures var body := Template(Addressed(old(notice[..]), privateId, publicId));
        State() == Protocol.ActivePass(old(State()), now, stamp, body)
      ensures OnWire(wire, Outgoing(old(State()), now))
    {
      hide *;
      ActiveCases(State(), now, stamp, Template(Addressed(notice[..], privateId, publicId)));
      wire := None;
      var lastSent := HeadTime();
      if lastSent != None {
        var gone := SeemsTimedOut(now);
        if gone {
          SendControl(notice);
          MoveTo(Leaving);
        } else {
          wire := ResendIfDue(now, stamp);
        }
      }
      WireCases(wire, Outgoing(old(State()), now));
    }

    static lemma ActiveCases(s: Session, now: int, stamp: int, body: seq<byte>)
      ensures Protocol.ActivePass(s, now, stamp, body)
           == if s.queue == [] then s
              else if TimedOut(s, now) then Enqueue(s, body).(phase := Leaving)
              else if Due(now, s.queue[0].lastSent) then Transmit(s, stamp) else s
      ensures Outgoing(s, now)
           == if s.queue != [] && !TimedOut(s, now) && Due(now, s.queue[0].lastSent) then {s.queue[0].packet} else {}
    {
    }

    static lemma WireCases(wire: Option<seq<byte>>, out: set<Packet>)
      ensures wire == None ==> (OnWire(wire, out) <==> out == {})
      ensures wire.Some? && |wire.value| >= HEADER && Accepts(wire.value, SUM_AT) ==>
                (OnWire(wire, out) <==> out == {Decode(wire.value)})
    {
      hide Accepts, Decode;
    }

    // The flush of a queue nobody will acknowledge any more.
    method Flush()
      requires Valid()
      modifies packets, packets.nodes
      ensures Valid() && State() == old(State()).(queue := [])
    {
      hide Accepts, Sum, Decode;
      packets.TakeAll();
    }

    method IsDrained() returns (drained: bool)
      requires Valid()
      ensures drained == (State().queue == [])
    {
      hide Accepts, Sum, Decode;
      drained := packets.first == null;
    }

    // packet_sender_thread, body of the loop over the leaving players.
    method LeavingPass(now: int, stamp: int) returns (wire: Option<seq<byte>>)
      requires Valid() && State().phase == Leaving
      modifies this`phase, packets, packets.nodes
      ensures Valid()
      ensures State() == Protocol.LeavingPass(old(State()), now, stamp)
      ensures OnWire(wire, Outgoing(old(State()), now))
    {
      hide *;
      ghost var s := State();
      LeavingCases(s, now, stamp);
      wire := None;
      var lastSent := HeadTime();
      if lastSent != None {
        var gone := SeemsTimedOut(now);
        if gone {
          Flush();
        } else {
          wire := ResendIfDue(now, stamp);
        }
      }
      var drained := IsDrained();
      if drained {
        MoveTo(Destroyed);
      }
      WireCases(wire, Outgoing(s, now));
    }

    static lemma LeavingCases(s: Session, now: int, stamp: int)
      ensures Protocol.LeavingPass(s, now, stamp)
           == if s.queue == [] || TimedOut(s, now) then s.(queue := []).(phase := Destroyed)
              else if Due(now, s.queue[0].lastSent) then Transmit(s, stamp) else s
      ensures s.queue != [] ==> Transmit(s, stamp).queue != []
      ensures s.queue == [] ==> s.(queue := []) == s
      ensures Outgoing(s, now)
           == if s.queue != [] && !TimedOut(s, now) && Due(now, s.queue[0].lastSent) then {s.queue[0].packet} else {}
    {
    }
  }

  // What went to the socket: nothing, or one packet that passes the client's check.
  ghost predicate OnWire(wire: Option<seq<byte>>, out: set<Packet>) {
    match wire
    case None => out == {}
    case Some(p) => |p| >= HEADER && Accepts(p, SUM_AT) && out == {Decode(p)}
  }
}
