/** What every run of the control-packet protocol guarantees, and where it stops. */
module Reliability {
  import opened Bytes
  import opened Protocol

  // ---- Delivery: exactly once, in order ----

  // Over every run, whatever the network loses, repeats or reorders: the packets popped by
  // acknowledgements are a prefix of those enqueued, in order and once each; the client had
  // each of them before its pop; and a client that drops repeats has seen exactly that prefix,
  // at most one packet ahead of the server's knowledge.
  lemma DeliveredInOrderOnce(lastPing: int, es: seq<Event>)
    requires Legal(Start(lastPing), es)
    requires |Run(Start(lastPing), es).enqueued| <= 0x1_0000_0000
    ensures var w := Run(Start(lastPing), es); var seen := Firsts(w.received);
      && w.acked <= w.enqueued
      && seen <= w.enqueued
      && |w.acked| <= |seen| <= |w.acked| + 1
      && (forall i :: 0 <= i < |w.acked| ==> exists p :: p in w.received && Plain(p) == w.acked[i])
  {
    RunKeepsInv(lastPing, es);
    var w := Run(Start(lastPing), es);
    forall i | 0 <= i < |w.acked| ensures exists p :: p in w.received && Plain(p) == w.acked[i] {
      FirstsWereReceived(w.received, i);
    }
  }

  lemma {:induction false} FirstsWereReceived(received: seq<Packet>, i: nat)
    requires i < |Firsts(received)|
    ensures exists p :: p in received && Plain(p) == Firsts(received)[i]
  {
    var before, q := received[..|received| - 1], received[|received| - 1];
    if i < |Firsts(before)| {
      FirstsWereReceived(before, i);
      var p :| p in before && Plain(p) == Firsts(before)[i];
      assert p in received;
    } else {
      assert q in received && Plain(q) == Firsts(received)[i];
    }
  }

  ghost predicate Consecutive(w: World) {
    var q := w.session.queue;
    && (w.session.phase != Destroyed ==> w.session.counter == (1 + |w.acked| + |q|) % 0x1_0000_0000)
    && (forall i :: 0 <= i < |q| ==> q[i].packet.counter == (1 + |w.acked| + i) % 0x1_0000_0000)
    && (forall i :: 1 <= i < |q| ==> q[i].packet.version == 0)
    && WithinBudget(q)
  }

  // In every reachable state the queued counters run on from the number of acknowledged
  // packets up to just below the session counter, and only the head carries a version,
  // at most 51.
  lemma QueueIsConsecutive(lastPing: int, es: seq<Event>)
    requires Legal(Start(lastPing), es)
    requires |Run(Start(lastPing), es).enqueued| <= 0x1_0000_0000
    ensures Consecutive(Run(Start(lastPing), es))
  {
    RunKeepsInv(lastPing, es);
    InvIsConsecutive(Run(Start(lastPing), es));
  }

  lemma InvIsConsecutive(w: World)
    requires Inv(w)
    ensures Consecutive(w)
  {
    var q := w.session.queue;
    forall i | 0 <= i < |q|
      ensures q[i].packet.counter == (1 + |w.acked| + i) % 0x1_0000_0000 && q[i].packet.version <= 51
    {
      assert Plain(q[i].packet) == w.enqueued[|w.acked| + i];
    }
  }

  // No acknowledgement the client ever sent is misread, at any moment of any run: if it names
  // the head's counter then the client has the head and the version test lets it through;
  // if it does not, it is stale and changes nothing.
  lemma EveryAckIsReadRightly(lastPing: int, es: seq<Event>, a: Ack)
    requires Legal(Start(lastPing), es)
    requires |Run(Start(lastPing), es).enqueued| <= 0x1_0000_0000
    requires a in Run(Start(lastPing), es).acks
    ensures var w := Run(Start(lastPing), es); var s := w.session;
      if s.queue != [] && s.queue[0].packet.counter == a.counter then
        && Matches(s, a)
        && Known(Firsts(w.received), a.counter)
        && HandleAck(s, a).queue == s.queue[1..]
      else
        HandleAck(s, a) == s
  {
    RunKeepsInv(lastPing, es);
    var w := Run(Start(lastPing), es);
    if w.session.queue != [] && w.session.queue[0].packet.counter == a.counter {
      HonestAckOfHead(w, a);
      var seen := Firsts(w.received);
      assert seen[|w.acked|] == w.enqueued[|w.acked|] == Plain(w.session.queue[0].packet);
    }
  }

  // Nothing is ever stuck: from every reachable state with a packet waiting, a resend that
  // comes through and is answered gets exactly that packet acknowledged.
  lemma HeadCanAlwaysBeDelivered(lastPing: int, es: seq<Event>, now: int, stamp: int, notice: seq<byte>)
    requires Legal(Start(lastPing), es)
    requires |Run(Start(lastPing), es).enqueued| <= 0x1_0000_0000
    requires var s := Run(Start(lastPing), es).session;
      && s.phase != Destroyed && s.queue != [] && now - s.lastPing < 11_000_000
      && s.queue[0].packet.version <= 50 && now - s.queue[0].lastSent > 500_000
    ensures var w := Run(Start(lastPing), es); var p := w.session.queue[0].packet;
      var more := [SenderPass(now, stamp, notice), Arrived(p, p.version), AckArrived(Ack(p.counter, p.version))];
      && Legal(w, more)
      && Run(w, more).acked == w.acked + [Plain(p)]
      && Run(w, more).session.queue == w.session.queue[1..]
  {
    RunKeepsInv(lastPing, es);
    TimedOutExactly(Run(Start(lastPing), es).session, now);
    DueExactly(now, Run(Start(lastPing), es).session.queue[0].lastSent);
    HeadDelivered(Run(Start(lastPing), es), now, stamp, notice);
  }

  lemma HeadDelivered(w: World, now: int, stamp: int, notice: seq<byte>)
    requires var s := w.session;
      s.phase != Destroyed && s.queue != [] && !TimedOut(s, now) && Due(now, s.queue[0].lastSent)
    ensures var p := w.session.queue[0].packet;
      var more := [SenderPass(now, stamp, notice), Arrived(p, p.version), AckArrived(Ack(p.counter, p.version))];
      && Legal(w, more)
      && Run(w, more).acked == w.acked + [Plain(p)]
      && Run(w, more).session.queue == w.session.queue[1..]
  {
    var p := w.session.queue[0].packet;
    var e1, e2, e3 := SenderPass(now, stamp, notice), Arrived(p, p.version), AckArrived(Ack(p.counter, p.version));
    var w1 := Next(w, e1);
    assert p in w1.sent && w1.session == Transmit(w.session, stamp);
    assert w1.session.queue[1..] == w.session.queue[1..];
    RunOne(w, e1);
    RunMore(w, [e1], e2);
    RunMore(w, [e1, e2], e3);
  }

  lemma RunOne(w: World, e: Event)
    requires Enabled(w, e)
    ensures Legal(w, [e]) && Run(w, [e]) == Next(w, e)
  {
    assert [e][..0] == [];
  }

  lemma RunMore(w: World, es: seq<Event>, e: Event)
    requires Legal(w, es) && Enabled(Run(w, es), e)
    ensures Legal(w, es + [e]) && Run(w, es + [e]) == Next(Run(w, es), e)
    ensures |es| == 2 ==> es + [e] == [es[0], es[1], e]
    ensures |es| == 1 ==> es + [e] == [es[0], e]
  {
    assert (es + [e])[..|es|] == es;
  }

  lemma RunParts(w: World, es: seq<Event>)
    requires Legal(w, es) && es != []
    ensures var before, e := es[..|es| - 1], es[|es| - 1];
      Legal(w, before) && Enabled(Run(w, before), e) && Run(w, es) == Next(Run(w, before), e)
  {
  }

  // ---- One pass, in the numbers of the code ----

  // A session has timed out exactly when eleven seconds have passed since the last ping, or the
  // head has gone out more than 50 times.
  lemma TimedOutExactly(s: Session, now: int)
    ensures TimedOut(s, now) <==>
      now - s.lastPing >= 11_000_000 || (s.queue != [] && s.queue[0].packet.version > 50)
  {
  }

  // Whether the pass gives the session up, and whether it sends the head again.
  predicate GivesUp(s: Session, now: int)
    requires s.queue != []
  {
    now - s.lastPing >= 11_000_000 || s.queue[0].packet.version > 50
  }

  // The head after it was sent: the next version, and the time of the sending.
  function Resent(h: Pending, stamp: int): Pending {
    Pending(Packet(h.packet.counter, (h.packet.version + 1) % 0x1_0000, h.packet.body), stamp)
  }

  // An active player with something queued leaves exactly when the pass gives him up. He is then
  // told under his own counter, and nothing is sent. Otherwise the head goes out if more than
  // half a second has passed since it last did, and nothing happens before that.
  lemma ActivePassExactly(s: Session, now: int, stamp: int, notice: seq<byte>)
    requires s.phase == Active && s.queue != []
    ensures var s', h := ActivePass(s, now, stamp, notice), s.queue[0];
      && (s'.phase == Leaving <==> GivesUp(s, now))
      && (GivesUp(s, now) ==>
        && Outgoing(s, now) == {}
        && s' == Session(Leaving, s.queue + [Pending(Packet(s.counter, 0, notice), 0)],
                         (s.counter + 1) % 0x1_0000_0000, s.lastPing))
      && (!GivesUp(s, now) && now - h.lastSent > 500_000 ==>
        Outgoing(s, now) == {h.packet} && s' == s.(queue := [Resent(h, stamp)] + s.queue[1..]))
      && (!GivesUp(s, now) && 0 <= now - h.lastSent <= 500_000 ==> Outgoing(s, now) == {} && s' == s)
  {
    TimedOutExactly(s, now);
    DueExactly(now, s.queue[0].lastSent);
    hide TimedOut, Due;
  }

  // A leaving player's queue is thrown away exactly when the pass gives him up; otherwise it is
  // worked off like an active one's. He is destroyed exactly when nothing is left.
  lemma LeavingPassExactly(s: Session, now: int, stamp: int)
    requires s.phase == Leaving && s.queue != []
    ensures var s', h := LeavingPass(s, now, stamp), s.queue[0];
      && (s'.phase == Destroyed <==> GivesUp(s, now))
      && (GivesUp(s, now) ==> Outgoing(s, now) == {} && s' == s.(phase := Destroyed, queue := []))
      && (!GivesUp(s, now) && now - h.lastSent > 500_000 ==>
        Outgoing(s, now) == {h.packet} && s' == s.(queue := [Resent(h, stamp)] + s.queue[1..]))
      && (!GivesUp(s, now) && 0 <= now - h.lastSent <= 500_000 ==> Outgoing(s, now) == {} && s' == s)
  {
    TimedOutExactly(s, now);
    DueExactly(now, s.queue[0].lastSent);
    hide TimedOut, Due;
  }

  // With an empty queue nothing is sent; a leaving player is destroyed, an active one stays.
  lemma EmptyQueuePasses(s: Session, now: int, stamp: int, notice: seq<byte>)
    requires s.queue == []
    ensures Outgoing(s, now) == {}
    ensures ActivePass(s, now, stamp, notice) == s && LeavingPass(s, now, stamp) == s.(phase := Destroyed)
  {
  }

  // A ping is recorded, and that is all it does.
  lemma PingExactly(w: World, at: int)
    ensures Next(w, Pinged(at)) == w.(session := w.session.(lastPing := at))
  {
  }

  // An acknowledgement, honest or not, pops the head exactly when it names the head's counter
  // and a version that is not above the one stored; it changes nothing else.
  lemma AckExactly(s: Session, a: Ack)
    requires s.phase != Destroyed
    ensures HandleAck(s, a) == s.(queue := HandleAck(s, a).queue)
    ensures HandleAck(s, a).queue
         == if s.queue != [] && s.queue[0].packet.counter == a.counter && s.queue[0].packet.version >= a.version
            then s.queue[1..] else s.queue
  {
    assert s == s.(queue := s.queue);
  }

  // ---- Draining ----

  // How many transmissions the packets of a queue have left.
  function Budget(q: seq<Pending>): int {
    if q == [] then 0 else 51 - q[0].packet.version + Budget(q[1..])
  }

  ghost predicate WithinBudget(q: seq<Pending>) {
    forall i :: 0 <= i < |q| ==> q[i].packet.version <= 51
  }

  lemma {:induction false} BudgetBounds(q: seq<Pending>)
    requires WithinBudget(q)
    ensures 0 <= Budget(q) <= 51 * |q|
  {
    if q == [] {
    } else {
      BudgetBounds(q[1..]);
    }
  }

  // A pass that sends something, and a pass that sends or destroys.
  predicate Sends(w: World, e: Event) {
    e.SenderPass? && Outgoing(w.session, e.now) != {}
  }

  predicate Acts(w: World, e: Event) {
    e.SenderPass? && (w.session.queue == [] || TimedOut(w.session, e.now) || Due(e.now, w.session.queue[0].lastSent))
  }

  function Count(w: World, es: seq<Event>, p: (World, Event) -> bool): nat {
    if es == [] then 0
    else
      var before := es[..|es| - 1];
      Count(w, before, p) + if p(Run(w, before), es[|es| - 1]) then 1 else 0
  }

  lemma LeavingStep(w: World, e: Event)
    requires w.session.phase != Active && WithinBudget(w.session.queue) && Enabled(w, e)
    requires w.session.phase == Destroyed ==> w.session.queue == []
    ensures var s, s' := w.session, Next(w, e).session;
      && s'.phase != Active && WithinBudget(s'.queue) && |s'.queue| <= |s.queue|
      && (s'.phase == Destroyed ==> s'.queue == [])
      && Budget(s'.queue) + (if Sends(w, e) then 1 else 0) <= Budget(s.queue)
      && (Acts(w, e) ==> s'.phase == Destroyed || Sends(w, e))
      && (s.phase == Destroyed ==> !Acts(w, e))
  {
    var s, s' := w.session, Next(w, e).session;
    BudgetBounds(s.queue);
    if s.queue != [] {
      BudgetBounds(s.queue[1..]);
      if e.SenderPass? && !TimedOut(s, e.now) && Due(e.now, s.queue[0].lastSent) {
        assert s'.queue[1..] == s.queue[1..];
      }
    }
  }

  // From the moment a player is leaving, over every run: his queue never grows, at most
  // 51 transmissions per queued packet remain, and after one acting pass more than that
  // he is destroyed.
  lemma {:induction false} LeavingQueueDrains(w: World, es: seq<Event>)
    requires w.session.phase == Leaving && WithinBudget(w.session.queue) && Legal(w, es)
    ensures var s, s' := w.session, Run(w, es).session;
      && s'.phase != Active && WithinBudget(s'.queue) && |s'.queue| <= |s.queue|
      && (s'.phase == Destroyed ==> s'.queue == [])
      && Count(w, es, Sends) + Budget(s'.queue) <= Budget(s.queue) <= 51 * |s.queue|
      && Count(w, es, Acts) <= Count(w, es, Sends) + (if s'.phase == Destroyed then 1 else 0)
      && (Count(w, es, Acts) > 51 * |s.queue| ==> s'.phase == Destroyed)
  {
    BudgetBounds(w.session.queue);
    if es != [] {
      var before := es[..|es| - 1];
      LeavingQueueDrains(w, before);
      LeavingStep(Run(w, before), es[|es| - 1]);
      BudgetBounds(Run(w, es).session.queue);
    }
  }

  // Reachable leaving sessions meet the requirement of LeavingQueueDrains.
  lemma ReachableWithinBudget(lastPing: int, es: seq<Event>)
    requires Legal(Start(lastPing), es)
    requires |Run(Start(lastPing), es).enqueued| <= 0x1_0000_0000
    ensures WithinBudget(Run(Start(lastPing), es).session.queue)
  {
    QueueIsConsecutive(lastPing, es);
  }

  // A pass over a leaving player that comes more than half a second after the last one
  // always acts, and one more than eleven seconds after the last ping destroys him at once.
  lemma LatePassActs(w: World, e: Event)
    requires e.SenderPass? && w.session.phase == Leaving
    ensures w.session.queue != [] && e.now - w.session.queue[0].lastSent > 500_000 ==> Acts(w, e)
    ensures e.now - w.session.lastPing >= 11_000_000 ==> Next(w, e).session.phase == Destroyed
  {
    if w.session.queue != [] {
      DueExactly(e.now, w.session.queue[0].lastSent);
    }
  }

  // ---- Draining, in time ----

  function TimesOf(q: seq<Pending>): set<int> {
    set i | 0 <= i < |q| :: q[i].lastSent
  }

  // The times any packet of the session may carry after a run: those its queue started with,
  // and the stamps of the passes that sent something.
  function Times(w: World, es: seq<Event>): set<int> {
    if es == [] then TimesOf(w.session.queue)
    else
      var before, e := es[..|es| - 1], es[|es| - 1];
      Times(w, before) + if Sends(Run(w, before), e) then {e.stamp} else {}
  }

  lemma TimesStep(w: World, e: Event)
    requires w.session.phase != Active && Enabled(w, e)
    ensures TimesOf(Next(w, e).session.queue) <= TimesOf(w.session.queue) + if Sends(w, e) then {e.stamp} else {}
  {
    var q, q' := w.session.queue, Next(w, e).session.queue;
    forall i | 0 <= i < |q'|
      ensures q'[i].lastSent in TimesOf(q) + if Sends(w, e) then {e.stamp} else {}
    {
      assert q'[i] in q || (Sends(w, e) && i == 0 && q'[0].lastSent == e.stamp) by {
        hide Due, Bumped;
      }
    }
  }

  // Every packet in the queue of a leaving player carries one of these times.
  lemma {:induction false} QueueCarriesTimes(w: World, es: seq<Event>)
    requires w.session.phase == Leaving && WithinBudget(w.session.queue) && Legal(w, es)
    ensures TimesOf(Run(w, es).session.queue) <= Times(w, es)
  {
    if es == [] {
      assert Run(w, es) == w;
    } else {
      var before := es[..|es| - 1];
      QueueCarriesTimes(w, before);
      LeavingQueueDrains(w, before);
      TimesStep(Run(w, before), es[|es| - 1]);
    }
  }

  // A pass that comes more than half a second after all of them.
  ghost predicate IsLate(w: World, before: seq<Event>, e: Event) {
    e.SenderPass? && forall t :: t in Times(w, before) ==> e.now - t > 500_000
  }

  ghost function LatePasses(w: World, es: seq<Event>): nat {
    if es == [] then 0
    else
      var before, e := es[..|es| - 1], es[|es| - 1];
      LatePasses(w, before) + if IsLate(w, before, e) then 1 else 0
  }

  lemma {:induction false} LatePassesAct(w: World, es: seq<Event>)
    requires w.session.phase == Leaving && WithinBudget(w.session.queue) && Legal(w, es)
    ensures LatePasses(w, es) <= Count(w, es, Acts)
  {
    if es == [] {
    } else {
      var before, e := es[..|es| - 1], es[|es| - 1];
      LatePassesAct(w, before);
      LeavingQueueDrains(w, before);
      QueueCarriesTimes(w, before);
      var w' := Run(w, before);
      if IsLate(w, before, e) && w'.session.queue != [] {
        assert w'.session.queue[0].lastSent in TimesOf(w'.session.queue);
        LatePassActs(w', e);
      }
    }
  }

  // However slowly the sender comes round, and whatever the network does in between: once a
  // leaving player was visited more than 51 times per queued packet, each time more than half
  // a second after anything was last sent to him, he is destroyed.
  lemma LatePassesDestroy(w: World, es: seq<Event>)
    requires w.session.phase == Leaving && WithinBudget(w.session.queue) && Legal(w, es)
    requires LatePasses(w, es) > 51 * |w.session.queue|
    ensures Run(w, es).session.phase == Destroyed
  {
    LatePassesAct(w, es);
    LeavingQueueDrains(w, es);
  }

  function Passes(es: seq<Event>): nat {
    if es == [] then 0
    else Passes(es[..|es| - 1]) + if es[|es| - 1].SenderPass? then 1 else 0
  }

  // Every pass comes more than half a second after every earlier one, and after everything
  // that was sent before the run.
  ghost predicate Spaced(q: seq<Pending>, es: seq<Event>) {
    && (forall i, k :: 0 <= i < |es| && es[i].SenderPass? && 0 <= k < |q| ==> es[i].now - q[k].lastSent > 500_000)
    && (forall i, j :: 0 <= j < i < |es| && es[i].SenderPass? && es[j].SenderPass? ==>
        es[i].now - es[j].stamp > 500_000)
  }

  lemma {:induction false} TimesAreStamps(w: World, es: seq<Event>, t: int)
    requires t in Times(w, es)
    ensures t in TimesOf(w.session.queue) || exists j :: 0 <= j < |es| && es[j].SenderPass? && es[j].stamp == t
  {
    if es == [] {
    } else {
      var before, e := es[..|es| - 1], es[|es| - 1];
      if t in Times(w, before) {
        TimesAreStamps(w, before, t);
        if t !in TimesOf(w.session.queue) {
          var j :| 0 <= j < |before| && before[j].SenderPass? && before[j].stamp == t;
          assert es[j] == before[j];
        }
      } else {
        assert es[|es| - 1].SenderPass? && es[|es| - 1].stamp == t;
      }
    }
  }

  lemma {:induction false} SpacedPassesAreLate(w: World, es: seq<Event>)
    requires Spaced(w.session.queue, es)
    ensures LatePasses(w, es) == Passes(es)
  {
    if es == [] {
    } else {
      var before, e := es[..|es| - 1], es[|es| - 1];
      assert forall i :: 0 <= i < |before| ==> before[i] == es[i];
      SpacedPassesAreLate(w, before);
      if e.SenderPass? {
        forall t | t in Times(w, before) ensures e.now - t > 500_000 {
          TimesAreStamps(w, before, t);
        }
      }
    }
  }

  // Passes spaced over half a second destroy a leaving player after at most 51 for each
  // packet he had queued, and one more.
  lemma SpacedPassesDestroy(w: World, es: seq<Event>)
    requires w.session.phase == Leaving && WithinBudget(w.session.queue) && Legal(w, es)
    requires Spaced(w.session.queue, es) && Passes(es) > 51 * |w.session.queue|
    ensures Run(w, es).session.phase == Destroyed
  {
    SpacedPassesAreLate(w, es);
    LatePassesDestroy(w, es);
  }

  // A pass eleven seconds or more after the last ping.
  predicate Overdue(lastPing: int, e: Event) {
    e.SenderPass? && e.now - lastPing >= 11_000_000
  }

  // The wall-clock bound: nothing a leaving player does moves his last ping, and the first pass
  // eleven seconds after it, if none before, destroys him. So the wait for the leaving list to
  // empty ends.
  lemma {:induction false} SilenceDestroys(w: World, es: seq<Event>)
    requires w.session.phase == Leaving && WithinBudget(w.session.queue) && Legal(w, es)
    ensures Run(w, es).session.lastPing == w.session.lastPing
    ensures (exists i :: 0 <= i < |es| && Overdue(w.session.lastPing, es[i])) ==> Run(w, es).session.phase == Destroyed
  {
    hide *;
    if es == [] {
      RunNothing(w);
    } else {
      var before, e := es[..|es| - 1], es[|es| - 1];
      RunParts(w, es);
      SilenceDestroys(w, before);
      LeavingQueueDrains(w, before);
      OverdueStep(Run(w, before), e);
      if i :| 0 <= i < |es| && Overdue(w.session.lastPing, es[i]) {
        assert i == |es| - 1 || before[i] == es[i];
      }
    }
  }

  lemma RunNothing(w: World)
    ensures Run(w, []) == w
  {
  }

  lemma OverdueStep(w: World, e: Event)
    requires w.session.phase != Active && Enabled(w, e)
    ensures Next(w, e).session.lastPing == w.session.lastPing
    ensures Overdue(w.session.lastPing, e) || w.session.phase == Destroyed ==> Next(w, e).session.phase == Destroyed
  {
    LeavingStepKeepsPing(w, e);
    if Overdue(w.session.lastPing, e) {
      LatePassActs(w, e);
    }
  }

  lemma LeavingStepKeepsPing(w: World, e: Event)
    requires w.session.phase != Active && Enabled(w, e)
    ensures Next(w, e).session.lastPing == w.session.lastPing
    ensures w.session.phase == Destroyed ==> Next(w, e).session.phase == Destroyed
  {
    hide Due;
  }

  // ---- Timing ----

  // The resend test is "more than half a second has passed", except that a clock reading
  // older than the stamp also passes it when the difference wraps into the upper half second.
  lemma DueExactly(now: int, lastSent: int)
    ensures Due(now, lastSent) <==>
      now - lastSent > 500_000 || (now < lastSent && (now - lastSent) % 1_000_000 > 500_000)
  {
    var d := now - lastSent;
    if 0 <= d < SECOND {
      assert d / SECOND == 0 && d % SECOND == d;
    }
  }

  // The sender reads the clock once per round but stamps with a later reading, so a player who
  // moves to the leaving list in between is seen again with the older reading: his head is
  // sent twice within microseconds.
  lemma StaleReadingResendsAtOnce()
    ensures Due(999_999, 1_000_000)
    ensures var s := Session(Leaving, [Pending(Packet(1, 1, []), 1_000_000)], 2, 0);
      Outgoing(s, 999_999) == {Packet(1, 1, [])}
  {
  }

  // ---- Why the counter must not be reused ----

  // One packet enqueued, sent, received and acknowledged.
  function Cycle(n: nat): seq<Event> {
    var c := CounterOf(n);
    [Queued([]), SenderPass(SECOND, SECOND, []), Arrived(Packet(c, 0, []), 0), AckArrived(Ack(c, 0))]
  }

  function Cycles(n: nat): seq<Event> {
    if n == 0 then [] else Cycles(n - 1) + Cycle(n - 1)
  }

  ghost predicate AfterCycles(w: World, n: nat) {
    && w.session == Session(Active, [], CounterOf(n), 0)
    && |w.enqueued| == |w.acked| == n
    && (n > 0 ==> Ack(1, 0) in w.acks)
    && (forall p :: p in w.received ==> p.body == [])
  }

  lemma CycleStates(w: World, n: nat)
    requires AfterCycles(w, n)
    ensures var e := Cycle(n);
      var w1 := Next(w, e[0]); var w2 := Next(w1, e[1]); var w3 := Next(w2, e[2]);
      && Enabled(w, e[0]) && Enabled(w1, e[1]) && Enabled(w2, e[2]) && Enabled(w3, e[3])
      && AfterCycles(Next(w3, e[3]), n + 1)
  {
    var c, e := CounterOf(n), Cycle(n);
    var w1 := Next(w, e[0]);
    assert w1.session.queue == [Pending(Packet(c, 0, []), 0)];
    assert Due(SECOND, 0);
    hide Due;
    assert Outgoing(w1.session, SECOND) == {Packet(c, 0, [])};
  }

  lemma CycleWorks(w: World, es: seq<Event>, n: nat)
    requires Legal(w, es) && AfterCycles(Run(w, es), n)
    ensures Legal(w, es + Cycle(n)) && AfterCycles(Run(w, es + Cycle(n)), n + 1)
  {
    hide Enabled, Next, Legal, Run, AfterCycles;
    var e := Cycle(n);
    CycleStates(Run(w, es), n);
    RunMore(w, es, e[0]);
    RunMore(w, es + [e[0]], e[1]);
    RunMore(w, es + [e[0]] + [e[1]], e[2]);
    RunMore(w, es + [e[0]] + [e[1]] + [e[2]], e[3]);
    assert es + [e[0]] + [e[1]] + [e[2]] + [e[3]] == es + e;
  }

  lemma {:induction false} CyclesWork(n: nat)
    ensures Legal(Start(0), Cycles(n)) && AfterCycles(Run(Start(0), Cycles(n)), n)
  {
    if n == 0 {
    } else {
      CyclesWork(n - 1);
      CycleWorks(Start(0), Cycles(n - 1), n - 1);
    }
  }

  // The packet number 2^32 + 1 was popped although nothing like it ever reached the client.
  ghost predicate PoppedUnseen(w: World, body: seq<byte>) {
    && |w.enqueued| == |w.acked| == 0x1_0000_0001
    && w.acked[0x1_0000_0000].body == body
    && (forall p :: p in w.received ==> p.body != body)
  }

  lemma ReuseStates(w: World, body: seq<byte>)
    requires AfterCycles(w, COUNTERS) && body != []
    ensures Enabled(w, Queued(body)) && Enabled(Next(w, Queued(body)), AckArrived(Ack(1, 0)))
    ensures PoppedUnseen(Next(Next(w, Queued(body)), AckArrived(Ack(1, 0))), body)
  {
    var w1 := Next(w, Queued(body));
    assert w1.session.queue == [Pending(Packet(1, 0, body), 0)];
  }

  // The bound of 2^32 packets cannot be raised: in some run with one packet more, the
  // acknowledgement of the very first packet pops the last one, which never reached anybody.
  lemma ReusedCounterLosesPacket(body: seq<byte>)
    requires body != []
    ensures exists es :: Legal(Start(0), es) && PoppedUnseen(Run(Start(0), es), body)
  {
    hide Enabled, Next, Legal, Run, AfterCycles, Cycles, PoppedUnseen;
    CyclesWork(COUNTERS);
    var es := Cycles(COUNTERS);
    ReuseStates(Run(Start(0), es), body);
    var e1, e2 := Queued(body), AckArrived(Ack(1, 0));
    RunMore(Start(0), es, e1);
    RunMore(Start(0), es + [e1], e2);
  }
}
