/** Notifications that go to every active player, each in his own copy:
    s_notify_player_left of control_packets/ctl_arrive_leave_player.c. */
module Broadcast {
  import opened Bytes
  import Codec = ChannelCodec
  import PacketTools
  import Protocol
  import Sender = PacketSender
  import Info = ServerInfo

  const PLAYER_LEFT: nat := 0x0065
  const NOTICE: nat := 64

  // The objects that belong to one player.
  ghost function Footprint(p: Sender.Player): set<object>
    reads p, p.packets
  {
    {p, p.packets} + set n | n in p.packets.nodes
  }

  // The notice that a player left, before it is stamped for its recipients.
  function Notice(publicId: nat): (s: seq<byte>)
    ensures |s| == NOTICE && |s| >= Sender.HEADER
  {
    ToLe(Info.CONTROL, 2) + ToLe(PLAYER_LEFT, 2) + Info.Fill(20) + ToLe(publicId, 4) + ToLe(1, 4) + Info.Fill(32)
  }

  // The notice as it is queued: a control packet that says who left, visibly, and no more.
  lemma NoticeArrives(leaver: nat, privateId: nat, publicId: nat)
    requires leaver < 0x1_0000_0000
    ensures var p := Sender.Template(Sender.Addressed(Notice(leaver), privateId, publicId));
      && |p| == 64 && FieldAt(p, 0, 2) == 0xBEF0 && FieldAt(p, 2, 2) == 0x65
      && FieldAt(p, 24, 4) == leaver && FieldAt(p, 28, 4) == 1 && forall k :: 32 <= k < 64 ==> p[k] == 0
  {
    hide ToLe, FieldAt;
    var n := Notice(leaver);
    var p := Sender.Template(Sender.Addressed(n, privateId, publicId));
    assert n == Info.Header(PLAYER_LEFT, leaver) + (ToLe(1, 4) + Info.Fill(32));
    Info.BodyKept(n, PLAYER_LEFT, leaver, ToLe(1, 4) + Info.Fill(32), privateId, publicId);
    assert p[28..32] == p[28..][..4] == ToLe(1, 4);
    assert forall k :: 32 <= k < 64 ==> p[k] == p[28..][k - 28];
    Codec.FieldReads32(p, 28, 1);
  }

  method BuildNotice(publicId: nat) returns (data: array<byte>)
    ensures fresh(data) && data[..] == Notice(publicId)
    ensures Holds(data[..], Notice(publicId))
  {
    hide ToLe;
    data := new byte[NOTICE](_ => 0);
    var ptr := WriteLe(data, 0, Info.CONTROL, 2);
    ptr := WriteLe(data, ptr, PLAYER_LEFT, 2);
    ptr := ptr + 20;
    ptr := WriteLe(data, ptr, publicId, 4);
    ptr := WriteLe(data, ptr, 1, 4);
    assert data[..] == Notice(publicId);
    assert data[..][16..18] == [0, 0] && FromLe([0, 0]) == 0;
  }

  // A buffer that holds the notice, whoever it was stamped for last.
  ghost predicate Holds(data: seq<byte>, notice: seq<byte>) {
    && |data| == |notice| >= Sender.HEADER && FieldAt(data, Sender.VERSION_AT, 2) == 0
    && Sender.Common(data) == Sender.Common(notice)
  }

  // The session of a player who was sent the notice.
  ghost function Told(s: Protocol.Session, p: Sender.Player, notice: seq<byte>): Protocol.Session
    requires |notice| >= Sender.HEADER
  {
    Protocol.Enqueue(s, Sender.Template(Sender.Addressed(notice, p.privateId, p.publicId)))
  }

  // One round of the loop: the notice is stamped for a player and queued.
  method NotifyOne(p: Sender.Player, data: array<byte>, ghost notice: seq<byte>)
    requires p.Valid() && |notice| >= Sender.HEADER && Holds(data[..], notice)
    modifies Footprint(p), data
    ensures p.Valid() && p.State() == Told(old(p.State()), p, notice)
    ensures Holds(data[..], notice)
    ensures fresh(Footprint(p) - old(Footprint(p)))
  {
    hide PacketTools.Accepts, Sender.Decode, Sender.Template, Sender.Addressed, Sender.Common, Protocol.Enqueue,
        FieldAt;
    Sender.CommonDecides(data[..], notice, p.privateId, p.publicId);
    p.SendControl(data);
  }

  // A player none of whose objects changed.
  twostate lemma Untouched(p: Sender.Player)
    requires old(p.Valid()) && forall o :: o in old(Footprint(p)) ==> unchanged(o)
    ensures p.Valid() && p.State() == old(p.State()) && Footprint(p) == old(Footprint(p))
  {
    hide PacketTools.Accepts, Sender.AllSealed, Sender.Views, Sender.Sealed;
    var q := p.packets;
    assert p in old(Footprint(p)) && q in old(Footprint(p));
    assert unchanged(p) && unchanged(q);
    assert q.nodes == old(q.nodes);
    forall i | 0 <= i < |q.nodes| ensures unchanged(q.nodes[i]) {
      assert q.nodes[i] in old(Footprint(p));
    }
    assert q.Contents() == old(q.Contents());
    assert q.Valid();
  }

  ghost predicate Apart(a: set<object>, b: set<object>) {
    a !! b
  }

  // The loop over the active players; the buffer is reused for each of them.
  method NotifyAll(players: seq<Sender.Player>, data: array<byte>, ghost notice: seq<byte>)
    requires |notice| >= Sender.HEADER && Holds(data[..], notice)
    requires forall i :: 0 <= i < |players| ==> players[i].Valid() && data !in Footprint(players[i])
    requires forall i, j :: 0 <= i < |players| && 0 <= j < |players| && i != j ==>
        Apart(Footprint(players[i]), Footprint(players[j]))
    modifies data, set p, o | p in players && o in Footprint(p) :: o
    ensures forall i :: 0 <= i < |players| ==> players[i].Valid()
    ensures forall i :: 0 <= i < |players| ==> players[i].State() == Told(old(players[i].State()), players[i], notice)
  {
    hide Told, Holds, Footprint, Sender.Player.Valid, Sender.Player.State, PacketTools.Accepts, Sender.Decode;
    for k := 0 to |players|
      invariant Holds(data[..], notice)
      invariant forall i :: 0 <= i < |players| ==> players[i].Valid() && data !in Footprint(players[i])
      invariant forall i, j :: 0 <= i < |players| && 0 <= j < |players| && i != j ==>
          Apart(Footprint(players[i]), Footprint(players[j]))
      invariant forall i :: 0 <= i < |players| ==> fresh(Footprint(players[i]) - old(Footprint(players[i])))
      invariant forall i :: k <= i < |players| ==> players[i].State() == old(players[i].State())
      invariant forall i :: 0 <= i < k ==> players[i].State() == Told(old(players[i].State()), players[i], notice)
    {
      label Before:
      NotifyOne(players[k], data, notice);
      forall i | 0 <= i < |players| && i != k
        ensures players[i].Valid() && players[i].State() == old@Before(players[i].State())
        ensures Footprint(players[i]) == old@Before(Footprint(players[i]))
      {
        assert old@Before(Apart(Footprint(players[i]), Footprint(players[k])));
        Untouched@Before(players[i]);
      }
      forall i | 0 <= i < |players| && i != k
        ensures Apart(Footprint(players[i]), Footprint(players[k]))
        ensures Apart(Footprint(players[k]), Footprint(players[i]))
      {
        assert old@Before(Apart(Footprint(players[i]), Footprint(players[k])));
        assert forall o :: o in Footprint(players[i]) ==> !fresh@Before(o);
      }
      assert fresh(Footprint(players[k]) - old(Footprint(players[k]))) by {
        assert forall o :: o in Footprint(players[k]) ==> o in old@Before(Footprint(players[k])) || fresh@Before(o);
      }
    }
  }

  // s_notify_player_left: every active player, the leaving one included, gets the notice once,
  // behind what he already has to receive and under his own counter.
  method NotifyPlayerLeft(players: seq<Sender.Player>, publicId: nat)
    requires forall i :: 0 <= i < |players| ==> players[i].Valid()
    requires forall i, j :: 0 <= i < |players| && 0 <= j < |players| && i != j ==>
        Apart(Footprint(players[i]), Footprint(players[j]))
    modifies set p, o | p in players && o in Footprint(p) :: o
    ensures forall i :: 0 <= i < |players| ==> players[i].Valid()
    ensures forall i :: 0 <= i < |players| ==>
        players[i].State() == Told(old(players[i].State()), players[i], Notice(publicId))
  {
    hide Told, Holds, Notice, Sender.Player.Valid, Sender.Player.State;
    var data := BuildNotice(publicId);
    NotifyAll(players, data, Notice(publicId));
  }
}
