/** The reliable control-packet protocol of one player: the server's queue, a network that
    loses, repeats and reorders, and a client that acknowledges what it receives. */
module Protocol {
  import opened Bytes

  const COUNTERS: nat := 0x1_0000_0000
  const VERSIONS: nat := 0x1_0000
  const MAX_VERSION: nat := 50
  const SECOND: int := 1_000_000
  const RESEND: int := 500_000
  const SILENCE: int := 10

  // ---- The server's side ----

  datatype Packet = Packet(counter: nat, version: nat, body: seq<byte>)
  datatype Ack = Ack(counter: nat, version: nat)
  datatype Pending = Pending(packet: Packet, lastSent: int)
  datatype Phase = Active | Leaving | Destroyed
  datatype Session = Session(phase: Phase, queue: seq<Pending>, counter: nat, lastPing: int)

  // timersub leaves the microseconds between 0 and a second, so the seconds are rounded down.
  predicate Due(now: int, lastSent: int) {
    (now - lastSent) / SECOND > 0 || (now - lastSent) % SECOND > RESEND
  }

  predicate TimedOut(s: Session, now: int) {
    (now - s.lastPing) / SECOND > SILENCE || (s.queue != [] && s.queue[0].packet.version > MAX_VERSION)
  }

  // Stamp with the session counter, queue a copy, advance the counter.
  function Enqueue(s: Session, body: seq<byte>): Session {
    s.(queue := s.queue + [Pending(Packet(s.counter, 0, body), 0)], counter := (s.counter + 1) % COUNTERS)
  }

  function Bumped(p: Packet): Packet {
    p.(version := (p.version + 1) % VERSIONS)
  }

  // The head goes out as it is; what stays queued carries the time and the next version.
  function Transmit(s: Session, stamp: int): Session
    requires s.queue != []
  {
    s.(queue := [Pending(Bumped(s.queue[0].packet), stamp)] + s.queue[1..])
  }

  predicate Matches(s: Session, a: Ack) {
    s.queue != [] && s.queue[0].packet.counter == a.counter && a.version <= s.queue[0].packet.version
  }

  function HandleAck(s: Session, a: Ack): Session {
    if s.phase != Destroyed && Matches(s, a) then s.(queue := s.queue[1..]) else s
  }

  // What one pass of the sender thread puts on the wire for this session.
  function Outgoing(s: Session, now: int): set<Packet> {
    if s.queue != [] && !TimedOut(s, now) && Due(now, s.queue[0].lastSent) then {s.queue[0].packet} else {}
  }

  // One pass of the sender thread over an active player. A silent one is told, like everybody,
  // that he left, and moves to the leaving list.
  function ActivePass(s: Session, now: int, stamp: int, notice: seq<byte>): Session {
    if s.queue == [] then s
    else if TimedOut(s, now) then Enqueue(s, notice).(phase := Leaving)
    else if Due(now, s.queue[0].lastSent) then Transmit(s, stamp)
    else s
  }

  // One pass over a leaving player: his queue drains or is emptied, and then he is destroyed.
  function LeavingPass(s: Session, now: int, stamp: int): Session {
    var s' :=
      if s.queue == [] then s
      else if TimedOut(s, now) then s.(queue := [])
      else if Due(now, s.queue[0].lastSent) then Transmit(s, stamp)
      else s;
    if s'.queue == [] then s'.(phase := Destroyed) else s'
  }

  // ---- The whole system, with its history ----

  datatype World = World(
    session: Session,
    enqueued: seq<Packet>,  // every packet ever queued, as first stamped
    acked: seq<Packet>,     // those popped by an acknowledgement, as first stamped
    sent: set<Packet>,      // every packet ever put on the wire
    received: seq<Packet>,  // every arrival at the client, repeats included
    acks: set<Ack>)         // every acknowledgement the client ever sent

  datatype Event =
    | Queued(body: seq<byte>)
    | SenderPass(now: int, stamp: int, notice: seq<byte>)
    | Left
    | Pinged(at: int)
    | Arrived(packet: Packet, ackVersion: nat)
    | AckArrived(ack: Ack)

  function Start(lastPing: int): World {
    World(Session(Active, [], 1, lastPing), [], [], {}, [], {})
  }

  // Packets and acknowledgements may arrive late, repeatedly, in any order or never:
  // whatever was once sent may arrive at any time.
  predicate Enabled(w: World, e: Event) {
    match e
    case Queued(_) => w.session.phase == Active
    case SenderPass(_, _, _) => w.session.phase != Destroyed
    case Left => w.session.phase == Active
    case Pinged(_) => w.session.phase == Active
    case Arrived(p, v) => p in w.sent && v <= p.version
    case AckArrived(a) => a in w.acks
  }

  function Plain(p: Packet): Packet {
    p.(version := 0)
  }

  function Next(w: World, e: Event): World {
    var s := w.session;
    match e
    case Queued(body) =>
      w.(session := Enqueue(s, body), enqueued := w.enqueued + [Packet(s.counter, 0, body)])
    case SenderPass(now, stamp, notice) =>
      var w' := w.(sent := w.sent + Outgoing(s, now));
      if s.phase == Active then
        w'.(session := ActivePass(s, now, stamp, notice),
            enqueued := if s.queue != [] && TimedOut(s, now)
                        then w.enqueued + [Packet(s.counter, 0, notice)] else w.enqueued)
      else
        w'.(session := LeavingPass(s, now, stamp))
    case Left => w.(session := s.(phase := Leaving))
    case Pinged(at) => w.(session := s.(lastPing := at))
    case Arrived(p, v) => w.(received := w.received + [p], acks := w.acks + {Ack(p.counter, v)})
    case AckArrived(a) =>
      w.(session := HandleAck(s, a),
         acked := if s.phase != Destroyed && Matches(s, a) then w.acked + [Plain(s.queue[0].packet)] else w.acked)
  }

  // Runs: every event is enabled where it happens.
  predicate Legal(w: World, es: seq<Event>) {
    es == [] || (Legal(w, es[..|es| - 1]) && Enabled(Run(w, es[..|es| - 1]), es[|es| - 1]))
  }

  function Run(w: World, es: seq<Event>): World {
    if es == [] then w else Next(Run(w, es[..|es| - 1]), es[|es| - 1])
  }

  // A client that drops every packet whose counter it has already seen.
  predicate Known(seen: seq<Packet>, counter: nat) {
    exists i :: 0 <= i < |seen| && seen[i].counter == counter
  }

  function Firsts(received: seq<Packet>): seq<Packet> {
    if received == [] then []
    else
      var seen, p := Firsts(received[..|received| - 1]), received[|received| - 1];
      if Known(seen, p.counter) then seen else seen + [Plain(p)]
  }

  // ---- The invariant ----

  function CounterOf(i: nat): nat {
    (1 + i) % COUNTERS
  }

  lemma CountersDiffer(i: nat, j: nat)
    requires i < COUNTERS && j < COUNTERS && CounterOf(i) == CounterOf(j)
    ensures i == j
  {
  }

  ghost predicate Stamped(w: World) {
    && w.session.counter == CounterOf(|w.enqueued|)
    && forall i :: 0 <= i < |w.enqueued| ==> w.enqueued[i].counter == CounterOf(i) && w.enqueued[i].version == 0
  }

  // The queue is what was enqueued and not yet acknowledged; only its head has been sent.
  ghost predicate Queueing(w: World) {
    var q := w.session.queue;
    && |w.acked| <= |w.enqueued| && w.acked == w.enqueued[..|w.acked|]
    && (w.session.phase == Destroyed ==> q == [])
    && (w.session.phase != Destroyed ==>
      && |w.acked| + |q| == |w.enqueued|
      && (forall i :: 0 <= i < |q| ==> Plain(q[i].packet) == w.enqueued[|w.acked| + i])
      && (forall i :: 1 <= i < |q| ==> q[i].packet.version == 0)
      && (q != [] ==> q[0].packet.version <= MAX_VERSION + 1))
  }

  // A sent packet is either acknowledged or the current head in an earlier version.
  ghost predicate SentAs(w: World, p: Packet, i: nat)
    requires Queueing(w)
  {
    && i < |w.enqueued| && Plain(p) == w.enqueued[i]
    && (i < |w.acked| ||
        (i == |w.acked| && (w.session.phase != Destroyed ==> p.version < w.session.queue[0].packet.version)))
  }

  ghost predicate Sending(w: World)
    requires Queueing(w)
  {
    forall p :: p in w.sent ==> exists i :: SentAs(w, p, i)
  }

  ghost predicate Receiving(w: World) {
    var seen := Firsts(w.received);
    && (forall p :: p in w.received ==> p in w.sent)
    && |w.acked| <= |seen| <= |w.acked| + 1
    && |seen| <= |w.enqueued| && seen == w.enqueued[..|seen|]
  }

  ghost predicate Answers(p: Packet, a: Ack) {
    p.counter == a.counter && a.version <= p.version
  }

  ghost predicate Acking(w: World) {
    forall a :: a in w.acks ==> exists p :: p in w.received && Answers(p, a)
  }

  ghost predicate Inv(w: World) {
    Stamped(w) && Queueing(w) && Sending(w) && Receiving(w) && Acking(w)
  }

  // ---- Every step keeps it, while no counter has been used twice ----

  lemma {:induction false} EverythingReceivedIsKnown(received: seq<Packet>, p: Packet)
    requires p in received
    ensures Known(Firsts(received), p.counter)
  {
    var before, q := received[..|received| - 1], received[|received| - 1];
    var seen := Firsts(before);
    if p in before {
      EverythingReceivedIsKnown(before, p);
      var i :| 0 <= i < |seen| && seen[i].counter == p.counter;
      assert Firsts(received)[i] == seen[i];
    } else {
      assert p == q;
      if !Known(seen, q.counter) {
        assert Firsts(received)[|seen|].counter == p.counter;
      }
    }
  }

  // An acknowledgement that carries the head's counter answers the head itself: the client
  // has it, and the version it answers is below the one now stored.
  lemma HonestAckOfHead(w: World, a: Ack)
    requires Inv(w) && |w.enqueued| <= COUNTERS && w.session.phase != Destroyed
    requires a in w.acks && w.session.queue != [] && a.counter == w.session.queue[0].packet.counter
    ensures a.version < w.session.queue[0].packet.version
    ensures |Firsts(w.received)| == |w.acked| + 1
  {
    var k := |w.acked|;
    var p :| p in w.received && Answers(p, a);
    var i :| SentAs(w, p, i);
    assert Plain(p).counter == CounterOf(i);
    assert w.enqueued[k] == Plain(w.session.queue[0].packet);
    CountersDiffer(i, k);
    EverythingReceivedIsKnown(w.received, p);
    var seen := Firsts(w.received);
    var j :| 0 <= j < |seen| && seen[j].counter == p.counter;
    assert seen[j] == w.enqueued[j];
    CountersDiffer(j, k);
  }

  lemma QueuedKeepsQueueing(w: World, body: seq<byte>)
    requires Queueing(w) && w.session.phase == Active
    ensures Queueing(Next(w, Queued(body)))
  {
    hide Plain;
    var w' := Next(w, Queued(body));
    var q, q' := w.session.queue, w'.session.queue;
    forall i | 0 <= i < |q'| ensures Plain(q'[i].packet) == w'.enqueued[|w'.acked| + i] {
      if i < |q| {
        assert q'[i] == q[i];
      } else {
        assert q'[i].packet == w'.enqueued[|w'.acked| + i] && Plain(q'[i].packet) == q'[i].packet by {
          PlainIsPlain(q'[i].packet);
        }
      }
    }
  }

  lemma PlainIsPlain(p: Packet)
    requires p.version == 0
    ensures Plain(p) == p
  {
  }

  lemma QueuedKeepsSending(w: World, body: seq<byte>)
    requires Queueing(w) && Sending(w) && w.session.phase == Active && Queueing(Next(w, Queued(body)))
    ensures Sending(Next(w, Queued(body)))
  {
    var w' := Next(w, Queued(body));
    forall p | p in w'.sent ensures exists i :: SentAs(w', p, i) {
      var i :| SentAs(w, p, i);
      assert SentAs(w', p, i);
    }
  }

  lemma QueuedKeepsInv(w: World, body: seq<byte>)
    requires Inv(w) && w.session.phase == Active
    ensures Inv(Next(w, Queued(body)))
  {
    hide Firsts, Acking, Queueing, Sending;
    QueuedKeepsQueueing(w, body);
    QueuedKeepsSending(w, body);
    assert Stamped(Next(w, Queued(body)));
    QueuedKeepsAcking(w, body);
  }

  lemma QueuedKeepsAcking(w: World, body: seq<byte>)
    ensures Acking(w) ==> Acking(Next(w, Queued(body)))
  {
  }

  // Steps that only advance the head's version and time, or the phase.
  lemma SendingStepKeepsInv(w: World, w': World)
    requires Inv(w) && w.session.phase != Destroyed
    requires w'.enqueued == w.enqueued && w'.acked == w.acked && w'.received == w.received && w'.acks == w.acks
    requires w'.session.counter == w.session.counter
    requires Queueing(w')
    requires w.sent <= w'.sent
    requires w'.session.phase != Destroyed && w.session.queue != [] ==>
               w.session.queue[0].packet.version <= w'.session.queue[0].packet.version
    requires forall p :: p in w'.sent && p !in w.sent ==>
               w.session.queue != [] && p == w.session.queue[0].packet &&
               (w'.session.phase != Destroyed ==> p.version < w'.session.queue[0].packet.version)
    ensures Inv(w')
  {
    forall p | p in w'.sent ensures exists i :: SentAs(w', p, i) {
      if p in w.sent {
        var i :| SentAs(w, p, i);
        assert SentAs(w', p, i);
      } else {
        assert SentAs(w', p, |w.acked|);
      }
    }
  }

  lemma TransmitKeepsQueueing(w: World, stamp: int)
    requires Queueing(w) && w.session.phase != Destroyed && w.session.queue != []
    requires w.session.queue[0].packet.version <= MAX_VERSION
    ensures Queueing(w.(session := Transmit(w.session, stamp)))
    ensures Transmit(w.session, stamp).queue[0].packet.version == w.session.queue[0].packet.version + 1
  {
    var q, q' := w.session.queue, Transmit(w.session, stamp).queue;
    assert forall i :: 1 <= i < |q| ==> q'[i] == q[i];
  }

  lemma TimeoutKeepsInv(w: World, e: Event)
    requires Inv(w) && e.SenderPass? && Enabled(w, e)
    requires w.session.queue != [] && TimedOut(w.session, e.now)
    ensures Inv(Next(w, e))
  {
    if w.session.phase == Active {
      QueuedKeepsInv(w, e.notice);
      var w1 := Next(w, Queued(e.notice));
      SendingStepKeepsInv(w1, w1.(session := w1.session.(phase := Leaving)));
      hide Inv, Due;
      assert Next(w, e) == w1.(session := w1.session.(phase := Leaving));
    } else {
      hide Due;
      SendingStepKeepsInv(w, Next(w, e));
    }
  }

  lemma ResendKeepsInv(w: World, e: Event)
    requires Inv(w) && e.SenderPass? && Enabled(w, e)
    requires w.session.queue != [] && !TimedOut(w.session, e.now) && Due(e.now, w.session.queue[0].lastSent)
    ensures Inv(Next(w, e))
  {
    hide Due;
    var s := w.session;
    var w' := w.(session := Transmit(s, e.stamp), sent := w.sent + {s.queue[0].packet});
    assert Next(w, e) == w';
    TransmitKeepsQueueing(w, e.stamp);
    assert Queueing(w');
    SendingStepKeepsInv(w, w');
  }

  lemma SenderPassKeepsInv(w: World, e: Event)
    requires Inv(w) && e.SenderPass? && Enabled(w, e)
    ensures Inv(Next(w, e))
  {
    hide Due;
    var s := w.session;
    if s.queue == [] {
      SendingStepKeepsInv(w, Next(w, e));
    } else if TimedOut(s, e.now) {
      TimeoutKeepsInv(w, e);
    } else if Due(e.now, s.queue[0].lastSent) {
      ResendKeepsInv(w, e);
    } else {
      assert Next(w, e) == w;
    }
  }

  lemma ArrivedKeepsReceiving(w: World, p: Packet, i: nat)
    requires Inv(w) && p in w.sent && |w.enqueued| <= COUNTERS && SentAs(w, p, i)
    ensures Receiving(w.(received := w.received + [p]))
  {
    hide Acking;
    var received' := w.received + [p];
    var seen := Firsts(w.received);
    assert received'[..|received'| - 1] == w.received;
    assert Plain(p).counter == CounterOf(i);
    if !Known(seen, p.counter) {
      forall j | 0 <= j < |seen| ensures w.enqueued[j] != Plain(p) {
        assert seen[j] == w.enqueued[j];
      }
      assert Firsts(received') == w.enqueued[..i + 1];
    }
  }

  lemma ArrivedKeepsInv(w: World, e: Event)
    requires Inv(w) && e.Arrived? && Enabled(w, e) && |w.enqueued| <= COUNTERS
    ensures Inv(Next(w, e))
  {
    var p, w' := e.packet, Next(w, e);
    var i: nat :| SentAs(w, p, i);
    ArrivedKeepsReceiving(w, p, i);
    hide Firsts, Known;
    forall q | q in w'.sent ensures exists j :: SentAs(w', q, j) {
      var j :| SentAs(w, q, j);
      assert SentAs(w', q, j);
    }
    forall a | a in w'.acks ensures exists q :: q in w'.received && Answers(q, a) {
      if a in w.acks {
        var q :| q in w.received && Answers(q, a);
        assert q in w'.received && Answers(q, a);
      } else {
        assert p in w'.received && Answers(p, a);
      }
    }
  }

  lemma AckArrivedKeepsInv(w: World, a: Ack)
    requires Inv(w) && a in w.acks && |w.enqueued| <= COUNTERS
    ensures Inv(Next(w, AckArrived(a)))
  {
    var s, w' := w.session, Next(w, AckArrived(a));
    if s.phase != Destroyed && Matches(s, a) {
      HonestAckOfHead(w, a);
      var k, q, q' := |w.acked|, s.queue, w'.session.queue;
      assert w'.acked == w.enqueued[..k + 1];
      forall i | 0 <= i < |q'| ensures Plain(q'[i].packet) == w'.enqueued[k + 1 + i] && q'[i].packet.version == 0 {
        assert q'[i] == q[i + 1];
      }
      assert Queueing(w');
      forall p | p in w'.sent ensures exists i :: SentAs(w', p, i) {
        var i :| SentAs(w, p, i);
        assert SentAs(w', p, i);
      }
    }
  }

  lemma NextKeepsInv(w: World, e: Event)
    requires Inv(w) && Enabled(w, e) && |w.enqueued| <= COUNTERS
    ensures Inv(Next(w, e))
  {
    match e
    case Queued(body) => QueuedKeepsInv(w, body);
    case SenderPass(_, _, _) => SenderPassKeepsInv(w, e);
    case Left => SendingStepKeepsInv(w, Next(w, e));
    case Pinged(_) => SendingStepKeepsInv(w, Next(w, e));
    case Arrived(_, _) => ArrivedKeepsInv(w, e);
    case AckArrived(a) => AckArrivedKeepsInv(w, a);
  }

  lemma {:induction false} RunKeepsInv(lastPing: int, es: seq<Event>)
    requires Legal(Start(lastPing), es)
    requires |Run(Start(lastPing), es).enqueued| <= COUNTERS
    ensures Inv(Run(Start(lastPing), es))
  {
    if es == [] {
    } else {
      RunKeepsInv(lastPing, es[..|es| - 1]);
      NextKeepsInv(Run(Start(lastPing), es[..|es| - 1]), es[|es| - 1]);
    }
  }
}
