/** The server as a whole: its membership together with one protocol session per player. The
    sender thread, the acknowledgements and the requests to leave tie the two. */
module Sessions {
  import opened Wrappers
  import opened Bytes
  import opened SlotArray
  import opened Membership
  import opened MembershipInvariant
  import R = ServerRuns
  import L = Reliability
  import P = Protocol

  datatype Ids = Ids(publicId: nat, privateId: nat)

  // worlds and ids keep every player who ever connected.
  datatype Whole = Whole(st: State, worlds: map<Ref, P.World>, ids: map<Ref, Ids>)

  datatype Event =
    | Serve(op: R.Op)
    | Join(p: Ref, privateId: nat, reg: Option<Ref>, c: Ref, now: int)
    | Notify(p: Ref, body: seq<byte>)
    | LeaveRequest(p: Ref, bodies: map<Ref, seq<byte>>)
    | ActiveVisit(p: Ref, now: int, stamp: int, bodies: map<Ref, seq<byte>>)
    | LeavingVisit(p: Ref, now: int, stamp: int)
    | Ping(p: Ref, at: int)
    | Receive(p: Ref, packet: P.Packet, ackVersion: nat)
    | AckComes(from: Ref, ack: P.Ack)

  function Start(): Whole {
    Whole(Initial(), map[], map[])
  }

  // Requests that bring nobody in and send nobody away.
  predicate Stays(op: R.Op) {
    op.Create? || op.Attach? || op.Delete? || op.SwitchTo? || op.MuteFor? || op.Grant?
  }

  // Random private identifiers are taken not to repeat. Whatever a client was sent may reach
  // it, and whatever it acknowledged may reach the server, at any later time, even after the
  // player is gone.
  predicate Enabled(w: Whole, e: Event) {
    match e
    case Serve(op) => Stays(op) && R.Enabled(w.st, op)
    case Join(p, privateId, reg, c, _) =>
      && R.Enabled(w.st, R.Connect(p, privateId, reg, c)) && p !in w.worlds
      && forall q :: q in w.ids ==> w.ids[q].privateId != privateId
    case Notify(p, _) => Holds(w.st.players, p) && p in w.worlds
    case LeaveRequest(p, _) => R.Enabled(w.st, R.Leave(p)) && p in w.worlds
    case ActiveVisit(p, _, _, _) => R.Enabled(w.st, R.Leave(p)) && p in w.worlds
    case LeavingVisit(p, _, _) => Holds(w.st.leaving, p) && p in w.worlds
    case Ping(p, _) => Holds(w.st.players, p) && p in w.worlds
    case Receive(p, packet, v) => p in w.worlds && P.Enabled(w.worlds[p], P.Arrived(packet, v))
    case AckComes(p, a) => p in w.worlds && p in w.ids && P.Enabled(w.worlds[p], P.AckArrived(a))
  }

  function Body(bodies: map<Ref, seq<byte>>, q: Ref): seq<byte> {
    if q in bodies then bodies[q] else []
  }

  // s_notify_player_left to every active player, the leaving one included, and remove_player.
  function Depart(w: Whole, p: Ref, bodies: map<Ref, seq<byte>>): Whole
    requires p in w.st.pl
  {
    var worlds := map q | q in w.worlds ::
      if !Holds(w.st.players, q) then w.worlds[q]
      else if q == p then P.Next(P.Next(w.worlds[q], P.Queued(Body(bodies, q))), P.Left)
      else P.Next(w.worlds[q], P.Queued(Body(bodies, q)));
    w.(st := RemovePlayer(w.st, p), worlds := worlds)
  }

  // The first player of a list with both identifiers.
  function FindIds(cells: seq<Option<Ref>>, pl: map<Ref, Player>, ids: Ids): (r: Option<Ref>)
    ensures r.Some? ==> r in cells && r.value in pl && Ids(pl[r.value].publicId, pl[r.value].privateId) == ids
    ensures r.None? ==> forall q :: Some(q) in cells && q in pl ==> Ids(pl[q].publicId, pl[q].privateId) != ids
  {
    if cells == [] then None
    else if cells[0].Some? && cells[0].value in pl
            && Ids(pl[cells[0].value].publicId, pl[cells[0].value].privateId) == ids then cells[0]
    else
      assert cells == [cells[0]] + cells[1..];
      FindIds(cells[1..], pl, ids)
  }

  // The player an acknowledgement names: active ones are searched before leaving ones.
  function Lookup(st: State, ids: Ids): Option<Ref> {
    var active := FindIds(st.players.cells, st.pl, ids);
    if active.Some? then active else FindIds(st.leaving.cells, st.pl, ids)
  }

  function One(w: Whole, p: Ref, e: P.Event): Whole
    requires p in w.worlds
  {
    w.(worlds := w.worlds[p := P.Next(w.worlds[p], e)])
  }

  function Next(w: Whole, e: Event): Whole
    requires Enabled(w, e)
  {
    match e
    case Serve(op) => w.(st := R.Step(w.st, op))
    case Join(p, privateId, reg, c, now) =>
      var st := R.Step(w.st, R.Connect(p, privateId, reg, c));
      Whole(st, w.worlds[p := P.Start(now)], w.ids[p := Ids(PublicId(st, p), privateId)])
    case Notify(p, body) => One(w, p, P.Queued(body))
    case LeaveRequest(p, bodies) => Depart(w, p, bodies)
    case ActiveVisit(p, now, stamp, bodies) =>
      var s := w.worlds[p].session;
      if s.queue != [] && P.TimedOut(s, now) then Depart(w, p, bodies) else One(w, p, P.SenderPass(now, stamp, []))
    case LeavingVisit(p, now, stamp) =>
      var w' := One(w, p, P.SenderPass(now, stamp, []));
      if w'.worlds[p].session.queue == [] then w'.(st := Destroy(w.st, p)) else w'
    case Ping(p, at) => One(w, p, P.Pinged(at))
    case Receive(p, packet, v) => One(w, p, P.Arrived(packet, v))
    case AckComes(from, a) =>
      var q := Lookup(w.st, w.ids[from]);
      if q.Some? && q.value in w.worlds then One(w, q.value, P.AckArrived(a)) else w
  }

  predicate Legal(w: Whole, es: seq<Event>)
    decreases |es|
  {
    es == [] || (Enabled(w, es[0]) && Legal(Next(w, es[0]), es[1..]))
  }

  function Run(w: Whole, es: seq<Event>): Whole
    requires Legal(w, es)
    decreases |es|
  {
    if es == [] then w else Run(Next(w, es[0]), es[1..])
  }

  // ---- The invariant ----

  function PhaseOf(st: State, p: Ref): P.Phase {
    if Holds(st.players, p) then P.Active else if Holds(st.leaving, p) then P.Leaving else P.Destroyed
  }

  // The list a player is on is the phase of his session, and who is gone has nothing queued.
  ghost predicate PhasesAgree(w: Whole) {
    && (forall p :: p in w.st.pl ==> p in w.worlds)
    && (forall p :: p in w.worlds ==> w.worlds[p].session.phase == PhaseOf(w.st, p))
    && (forall p :: p in w.worlds && w.worlds[p].session.phase == P.Destroyed ==> w.worlds[p].session.queue == [])
  }

  ghost predicate IdsAgree(w: Whole) {
    && (forall p :: p in w.worlds <==> p in w.ids)
    && (forall p :: p in w.st.pl ==> p in w.ids && w.ids[p] == Ids(w.st.pl[p].publicId, w.st.pl[p].privateId))
    && (forall p, q :: p in w.ids && q in w.ids && p != q ==> w.ids[p].privateId != w.ids[q].privateId)
  }

  // A session is in order until its counter wraps around.
  ghost predicate InOrder(v: P.World) {
    |v.enqueued| <= P.COUNTERS ==> P.Inv(v)
  }

  ghost predicate SessionsOk(w: Whole) {
    forall p :: p in w.worlds ==> InOrder(w.worlds[p])
  }

  ghost predicate Sound(w: Whole) {
    Inv(w.st) && PhasesAgree(w) && IdsAgree(w) && SessionsOk(w)
  }

  // ---- What the steps keep ----

  lemma SessionStep(v: P.World, e: P.Event)
    requires InOrder(v) && P.Enabled(v, e)
    ensures InOrder(P.Next(v, e)) && |v.enqueued| <= |P.Next(v, e).enqueued|
  {
    assert |v.enqueued| <= |P.Next(v, e).enqueued| by {
      hide P.Inv, P.Due;
    }
    hide P.Next, P.Enabled, P.Inv;
    if |P.Next(v, e).enqueued| <= P.COUNTERS {
      P.NextKeepsInv(v, e);
    }
  }

  predicate SameIds(r: Player, s: Player) {
    s.publicId == r.publicId && s.privateId == r.privateId
  }

  // The same people under the same identifiers, on the same lists.
  ghost predicate SamePeople(st: State, st': State) {
    && (forall p :: Holds(st'.players, p) <==> Holds(st.players, p))
    && (forall p :: Holds(st'.leaving, p) <==> Holds(st.leaving, p))
    && (forall p :: p in st'.pl <==> p in st.pl)
    && (forall p :: p in st.pl ==> p in st'.pl && SameIds(st.pl[p], st'.pl[p]))
  }

  lemma ServeKeepsPeople(st: State, op: R.Op)
    requires Stays(op) && R.Enabled(st, op)
    ensures SamePeople(st, R.Step(st, op))
  {
    hide Holds, Inserted, Removed, SetFlags, IsFull, HasRoom;
  }

  lemma SamePeopleAgree(w: Whole, st': State)
    requires PhasesAgree(w) && IdsAgree(w) && SamePeople(w.st, st')
    ensures PhasesAgree(w.(st := st')) && IdsAgree(w.(st := st'))
  {
    hide Holds;
  }

  lemma ServeKeepsSound(w: Whole, e: Event)
    requires Sound(w) && e.Serve? && Enabled(w, e)
    ensures Sound(Next(w, e))
  {
    R.StepKeepsInv(w.st, e.op);
    ServeKeepsPeople(w.st, e.op);
    SamePeopleAgree(w, R.Step(w.st, e.op));
    hide Inv, R.Step, R.Enabled, Holds, PhasesAgree, IdsAgree, InOrder;
  }

  // st' is st with one active player more.
  ghost predicate OneMore(st: State, st': State, p: Ref, privateId: nat) {
    && (forall q :: Holds(st'.players, q) <==> q == p || Holds(st.players, q))
    && (forall q :: Holds(st'.leaving, q) <==> Holds(st.leaving, q))
    && (forall q :: q in st'.pl <==> q == p || q in st.pl)
    && (forall q :: q in st.pl && q != p ==> q in st'.pl && SameIds(st.pl[q], st'.pl[q]))
    && p in st'.pl && st'.pl[p].privateId == privateId
  }

  lemma JoinAddsOne(st: State, p: Ref, privateId: nat, reg: Option<Ref>, c: Ref)
    requires Inv(st) && R.Enabled(st, R.Connect(p, privateId, reg, c))
    ensures OneMore(st, R.Step(st, R.Connect(p, privateId, reg, c)), p, privateId)
  {
    hide Inv, Inserted, IsFull, PublicIds, HasRoom;
    InsertOk(st.players, p) by {
      assert WellFormed(st.players) && !Holds(st.players, p) by {
        InvGivesShape(st);
      }
    }
    NewcomerIsAdded(WithDefault(st, c), p, NewPlayer(privateId, reg), DefaultOf(st, c));
    hide Holds, WellFormed;
  }

  lemma InvGivesShape(st: State)
    requires Inv(st)
    ensures Shape(st)
  {
  }

  lemma NewcomerIsAdded(st: State, p: Ref, r: Player, d: Ref)
    requires d in st.ch
    ensures var st' := AddPlayer(st, p, r, d);
      && st'.players == Inserted(st.players, p) && st'.leaving == st.leaving
      && (forall q :: q in st'.pl <==> q == p || q in st.pl)
      && (forall q :: q in st.pl && q != p ==> q in st'.pl && st'.pl[q] == st.pl[q])
      && p in st'.pl && st'.pl[p].privateId == r.privateId
  {
    hide Inserted, PublicIds, HasRoom, IsFull;
  }

  lemma OneMoreAgrees(w: Whole, st': State, p: Ref, privateId: nat, v: P.World)
    requires PhasesAgree(w) && IdsAgree(w) && OneMore(w.st, st', p, privateId)
    requires p !in w.worlds && !Holds(w.st.leaving, p) && v.session.phase == P.Active
    requires forall q :: q in w.ids ==> w.ids[q].privateId != privateId
    ensures var w' := Whole(st', w.worlds[p := v], w.ids[p := Ids(st'.pl[p].publicId, privateId)]);
      PhasesAgree(w') && IdsAgree(w')
  {
    hide Holds;
  }

  lemma StrangersAreNotLeaving(w: Whole, p: Ref)
    requires Sound(w) && p !in w.worlds
    ensures !Holds(w.st.leaving, p)
  {
    hide Holds, WellFormed, ChannelsOk, EntriesOk, PlayersOk, IdsOk, SessionsOk;
  }

  lemma JoinKeepsSound(w: Whole, e: Event)
    requires Sound(w) && e.Join? && Enabled(w, e)
    ensures Sound(Next(w, e))
  {
    hide Inv, R.Step, R.Enabled, Holds, PhasesAgree, IdsAgree;
    var op := R.Connect(e.p, e.privateId, e.reg, e.c);
    R.StepKeepsInv(w.st, op);
    JoinAddsOne(w.st, e.p, e.privateId, e.reg, e.c);
    assert InOrder(P.Start(e.now));
    StrangersAreNotLeaving(w, e.p);
    OneMoreAgrees(w, R.Step(w.st, op), e.p, e.privateId, P.Start(e.now));
    hide InOrder, OneMore;
  }

  lemma OneAgrees(w: Whole, p: Ref, v: P.World)
    requires PhasesAgree(w) && IdsAgree(w) && p in w.worlds
    requires v.session.phase == w.worlds[p].session.phase
    requires v.session.phase == P.Destroyed ==> v.session.queue == []
    ensures PhasesAgree(w.(worlds := w.worlds[p := v])) && IdsAgree(w.(worlds := w.worlds[p := v]))
  {
    hide Holds;
  }

  // An event of one session that leaves its phase alone.
  lemma OneKeepsSound(w: Whole, p: Ref, e: P.Event)
    requires Sound(w) && p in w.worlds && P.Enabled(w.worlds[p], e)
    requires var v, v' := w.worlds[p], P.Next(w.worlds[p], e);
      v'.session.phase == v.session.phase && (v.session.phase == P.Destroyed ==> v'.session.queue == [])
    ensures Sound(One(w, p, e))
  {
    hide Inv, InOrder, P.Next, P.Enabled;
    SessionStep(w.worlds[p], e);
    OneAgrees(w, p, P.Next(w.worlds[p], e));
    hide PhasesAgree, IdsAgree;
  }

  lemma SessionFacts(w: Whole, p: Ref)
    requires Sound(w) && p in w.worlds
    ensures w.worlds[p].session.phase == PhaseOf(w.st, p)
    ensures w.worlds[p].session.phase == P.Destroyed ==> w.worlds[p].session.queue == []
  {
    hide Inv;
  }

  // What remove_player changes about who is where.
  ghost predicate OneLeft(st: State, st': State, p: Ref) {
    && (forall q :: Holds(st'.players, q) <==> q != p && Holds(st.players, q))
    && (forall q :: Holds(st'.leaving, q) <==> q == p || Holds(st.leaving, q))
    && (forall q :: q in st'.pl <==> q in st.pl)
    && (forall q :: q in st.pl ==> q in st'.pl && SameIds(st.pl[q], st'.pl[q]))
  }

  lemma RemoveKeepsRecords(st: State, p: Ref)
    requires p in st.pl
    ensures var st' := RemovePlayer(st, p);
      && st'.players == Removed(st.players, p) && st'.leaving == Inserted(st.leaving, p)
      && (forall q :: q in st'.pl <==> q in st.pl)
      && (forall q :: q in st.pl ==> q in st'.pl && SameIds(st.pl[q], st'.pl[q]))
  {
    hide Inserted, Removed, PrivsWithout, Holds, Nones;
  }

  lemma RemoveMovesOne(st: State, p: Ref)
    requires Inv(st) && Holds(st.players, p) && p in st.pl && HasRoom(st.leaving)
    ensures OneLeft(st, RemovePlayer(st, p), p)
  {
    hide RemovePlayer, Inserted, Removed, HasRoom, WellFormed, ChannelsOk, EntriesOk, PlayersOk, IdsOk;
    RemoveOk(st.players, p);
    InsertOk(st.leaving, p);
    RemoveKeepsRecords(st, p);
    hide Holds, Shape;
  }

  // When a player departs, every active player gets the notice once, under his own counter and
  // behind what he already has; he himself is then leaving. Nobody else's session changes.
  lemma DepartTellsEverybody(w: Whole, p: Ref, bodies: map<Ref, seq<byte>>, q: Ref)
    requires p in w.st.pl && q in w.worlds
    ensures var s, w' := w.worlds[q].session, Depart(w, p, bodies);
      && w'.st == RemovePlayer(w.st, p) && w'.ids == w.ids && q in w'.worlds
      && (Holds(w.st.players, q) ==>
        w'.worlds[q].session == P.Session(if q == p then P.Leaving else s.phase,
          s.queue + [P.Pending(P.Packet(s.counter, 0, Body(bodies, q)), 0)],
          (s.counter + 1) % 0x1_0000_0000, s.lastPing))
      && (!Holds(w.st.players, q) ==> w'.worlds[q] == w.worlds[q])
  {
    hide RemovePlayer, Holds;
  }

  // A visit of the sender to an active player, in the numbers of the code: he departs exactly
  // when something is queued for him and eleven seconds have passed since his last ping or the
  // head was sent more than 50 times; otherwise nothing but his own session may change.
  lemma ActiveVisitExactly(w: Whole, p: Ref, now: int, stamp: int, bodies: map<Ref, seq<byte>>)
    requires Enabled(w, ActiveVisit(p, now, stamp, bodies))
    ensures var s, w' := w.worlds[p].session, Next(w, ActiveVisit(p, now, stamp, bodies));
      if s.queue != [] && (now - s.lastPing >= 11_000_000 || s.queue[0].packet.version > 50)
      then p in w.st.pl && w' == Depart(w, p, bodies)
      else w'.st == w.st && w'.ids == w.ids && p in w'.worlds && w'.worlds == w.worlds[p := w'.worlds[p]]
  {
    OnlyActiveLeave(w.st, p);
    L.TimedOutExactly(w.worlds[p].session, now);
    hide P.TimedOut, P.Next, Depart;
  }

  lemma DepartKeepsSessions(w: Whole, p: Ref, bodies: map<Ref, seq<byte>>)
    requires PhasesAgree(w) && SessionsOk(w) && Holds(w.st.players, p) && p in w.st.pl
    ensures SessionsOk(Depart(w, p, bodies))
    ensures Departed(w, Depart(w, p, bodies), p)
  {
    hide InOrder, P.Next, RemovePlayer;
    var w' := Depart(w, p, bodies);
    forall q | q in w.worlds && Holds(w.st.players, q)
      ensures InOrder(w'.worlds[q])
      ensures w'.worlds[q].session.phase == if q == p then P.Leaving else P.Active
    {
      TellAndLeave(w.worlds[q], Body(bodies, q));
    }
  }

  // The sessions after a player departed: he is leaving, and who was not active is untouched.
  ghost predicate Departed(w: Whole, w': Whole, p: Ref) {
    && w'.ids == w.ids && (forall q :: q in w'.worlds <==> q in w.worlds)
    && (forall q :: q in w.worlds && Holds(w.st.players, q) ==>
      q in w'.worlds && w'.worlds[q].session.phase == if q == p then P.Leaving else P.Active)
    && (forall q :: q in w.worlds && !Holds(w.st.players, q) ==> q in w'.worlds && w'.worlds[q] == w.worlds[q])
  }

  lemma TellAndLeave(v: P.World, body: seq<byte>)
    requires InOrder(v) && v.session.phase == P.Active
    ensures var v1 := P.Next(v, P.Queued(body));
      && InOrder(v1) && v1.session.phase == P.Active
      && InOrder(P.Next(v1, P.Left)) && P.Next(v1, P.Left).session.phase == P.Leaving
  {
    hide InOrder;
    SessionStep(v, P.Queued(body));
    SessionStep(P.Next(v, P.Queued(body)), P.Left);
  }

  lemma DepartedPhasesAgree(w: Whole, w': Whole, p: Ref)
    requires PhasesAgree(w) && Departed(w, w', p) && OneLeft(w.st, w'.st, p)
    requires Holds(w.st.players, p) && p in w.st.pl
    ensures PhasesAgree(w')
  {
    hide Holds, SameIds;
    forall q | q in w'.worlds
      ensures w'.worlds[q].session.phase == PhaseOf(w'.st, q)
      ensures w'.worlds[q].session.phase == P.Destroyed ==> w'.worlds[q].session.queue == []
    {
      assert w.worlds[q].session.phase == PhaseOf(w.st, q);
    }
  }

  lemma DepartedIdsAgree(w: Whole, w': Whole, p: Ref)
    requires IdsAgree(w) && Departed(w, w', p) && OneLeft(w.st, w'.st, p)
    ensures IdsAgree(w')
  {
    hide Holds;
  }

  lemma DepartKeepsSound(w: Whole, p: Ref, bodies: map<Ref, seq<byte>>)
    requires Sound(w) && R.Enabled(w.st, R.Leave(p)) && p in w.worlds
    ensures Sound(Depart(w, p, bodies))
  {
    hide Inv, InOrder, RemovePlayer, HasRoom, P.Next, Holds;
    RemoveKeepsInv(w.st, p);
    RemoveMovesOne(w.st, p);
    DepartKeepsSessions(w, p, bodies);
    DepartedPhasesAgree(w, Depart(w, p, bodies), p);
    DepartedIdsAgree(w, Depart(w, p, bodies), p);
    hide PhasesAgree, IdsAgree, SessionsOk;
  }

  lemma LeaveRequestKeepsSound(w: Whole, e: Event)
    requires Sound(w) && e.LeaveRequest? && Enabled(w, e)
    ensures Sound(Next(w, e))
  {
    hide Sound, R.Enabled, Depart;
    DepartKeepsSound(w, e.p, e.bodies);
  }

  // What destroy_player changes about who is where.
  lemma GoneAgrees(w: Whole, st': State, p: Ref, v: P.World)
    requires PhasesAgree(w) && IdsAgree(w) && Shape(w.st) && Holds(w.st.leaving, p) && p in w.worlds
    requires st' == Destroy(w.st, p) && v.session.phase == P.Destroyed && v.session.queue == []
    requires forall q :: Holds(st'.leaving, q) <==> q != p && Holds(w.st.leaving, q)
    ensures var w' := w.(st := st', worlds := w.worlds[p := v]); PhasesAgree(w') && IdsAgree(w')
  {
    hide Holds, Removed, WellFormed;
  }

  lemma DrainedKeepsSound(w: Whole, p: Ref, v: P.World)
    requires Sound(w) && Holds(w.st.leaving, p) && p in w.worlds
    requires InOrder(v) && v.session.phase == P.Destroyed && v.session.queue == []
    ensures Sound(w.(st := Destroy(w.st, p), worlds := w.worlds[p := v]))
  {
    hide InOrder, ChannelsOk, EntriesOk, PlayersOk, IdsOk;
    DestroyKeepsInv(w.st, p);
    RemoveOk(w.st.leaving, p);
    GoneAgrees(w, Destroy(w.st, p), p, v);
    hide PhasesAgree, IdsAgree, Inv, Destroy;
  }

  lemma LeavingVisitKeepsSound(w: Whole, e: Event)
    requires Sound(w) && e.LeavingVisit? && Enabled(w, e)
    ensures Sound(Next(w, e))
  {
    var pass, v := P.SenderPass(e.now, e.stamp, []), w.worlds[e.p];
    OnlyLeaving(w, e.p);
    LeavingPassEnds(v, e.now, e.stamp);
    SessionIsInOrder(w, e.p);
    SessionStep(v, pass);
    hide Sound, P.Next, InOrder, Destroy;
    if P.Next(v, pass).session.queue == [] {
      DrainedKeepsSound(w, e.p, P.Next(v, pass));
    } else {
      OneKeepsSound(w, e.p, pass);
    }
  }

  // The sender destroys a leaving player exactly when the protocol's pass ends his session.
  lemma DestroyedExactlyWhenPassEnds(w: Whole, p: Ref, now: int, stamp: int)
    requires Sound(w) && Enabled(w, LeavingVisit(p, now, stamp))
    ensures p !in Next(w, LeavingVisit(p, now, stamp)).st.pl
       <==> P.LeavingPass(w.worlds[p].session, now, stamp).phase == P.Destroyed
  {
    OnlyLeaving(w, p);
    LeavingIsRecorded(w.st, p);
    LeavingPassEnds(w.worlds[p], now, stamp);
    hide Sound, P.LeavingPass;
  }

  lemma LeavingIsRecorded(st: State, p: Ref)
    requires Holds(st.leaving, p) && Inv(st)
    ensures p in st.pl
  {
  }

  lemma OnlyLeaving(w: Whole, p: Ref)
    requires Sound(w) && p in w.worlds && Holds(w.st.leaving, p)
    ensures w.worlds[p].session.phase == P.Leaving
  {
    hide Holds, WellFormed, ChannelsOk, EntriesOk, PlayersOk, IdsOk;
  }

  lemma SessionIsInOrder(w: Whole, p: Ref)
    requires Sound(w) && p in w.worlds
    ensures InOrder(w.worlds[p])
  {
    hide Inv, InOrder;
  }

  lemma LeavingPassEnds(v: P.World, now: int, stamp: int)
    requires v.session.phase == P.Leaving
    ensures P.Enabled(v, P.SenderPass(now, stamp, []))
    ensures var s := P.Next(v, P.SenderPass(now, stamp, [])).session;
      s.phase == if s.queue == [] then P.Destroyed else P.Leaving
  {
  }

  // An acknowledgement reaches the session it belongs to, or nobody once that player is gone.
  lemma LookupFinds(w: Whole, from: Ref)
    requires Sound(w) && from in w.ids
    ensures Lookup(w.st, w.ids[from]) == if from in w.st.pl then Some(from) else None
  {
    hide ChannelsOk, EntriesOk, PlayersOk, IdsOk, SessionsOk, FindIds, WellFormed;
    var r := Lookup(w.st, w.ids[from]);
    if r.Some? {
      assert w.ids[r.value] == w.ids[from];
    }
    if from in w.st.pl {
      assert Holds(w.st.players, from) || Holds(w.st.leaving, from);
    }
  }

  lemma AckKeepsSound(w: Whole, e: Event)
    requires Sound(w) && e.AckComes? && Enabled(w, e)
    ensures Sound(Next(w, e))
  {
    hide Sound, Lookup, P.Next, P.Enabled;
    LookupFinds(w, e.from);
    SessionFacts(w, e.from);
    AckKeepsPhase(w.worlds[e.from], e.ack);
    if e.from in w.st.pl {
      OneKeepsSound(w, e.from, P.AckArrived(e.ack));
    }
  }

  lemma AckKeepsPhase(v: P.World, a: P.Ack)
    ensures var s, s' := v.session, P.Next(v, P.AckArrived(a)).session;
      s'.phase == s.phase && (s.phase == P.Destroyed ==> s'.queue == s.queue)
  {
  }

  lemma ActiveEvents(v: P.World, body: seq<byte>, at: int)
    requires v.session.phase == P.Active
    ensures P.Enabled(v, P.Queued(body)) && P.Next(v, P.Queued(body)).session.phase == P.Active
    ensures P.Enabled(v, P.Pinged(at)) && P.Next(v, P.Pinged(at)).session.phase == P.Active
  {
  }

  lemma ActivePasses(v: P.World, now: int, stamp: int)
    requires v.session.phase == P.Active && !(v.session.queue != [] && P.TimedOut(v.session, now))
    ensures var e := P.SenderPass(now, stamp, []); P.Enabled(v, e) && P.Next(v, e).session.phase == P.Active
  {
    hide P.TimedOut, P.Due;
  }

  lemma ArrivalKeepsSession(v: P.World, p: P.Packet, ackVersion: nat)
    ensures P.Next(v, P.Arrived(p, ackVersion)).session == v.session
  {
  }

  lemma ActiveVisitKeepsSound(w: Whole, e: Event)
    requires Sound(w) && e.ActiveVisit? && Enabled(w, e)
    ensures Sound(Next(w, e))
  {
    hide Sound, Depart, InOrder, P.TimedOut, P.Next, P.Enabled;
    SessionFacts(w, e.p);
    var s := w.worlds[e.p].session;
    if s.queue != [] && P.TimedOut(s, e.now) {
      DepartKeepsSound(w, e.p, e.bodies);
    } else {
      ActivePasses(w.worlds[e.p], e.now, e.stamp);
      OneKeepsSound(w, e.p, P.SenderPass(e.now, e.stamp, []));
    }
  }

  lemma NotifyKeepsSound(w: Whole, e: Event)
    requires Sound(w) && e.Notify? && Enabled(w, e)
    ensures Sound(Next(w, e))
  {
    hide Sound, P.Next, P.Enabled;
    SessionFacts(w, e.p);
    ActiveEvents(w.worlds[e.p], e.body, 0);
    OneKeepsSound(w, e.p, P.Queued(e.body));
  }

  lemma PingKeepsSound(w: Whole, e: Event)
    requires Sound(w) && e.Ping? && Enabled(w, e)
    ensures Sound(Next(w, e))
  {
    hide Sound, P.Next, P.Enabled;
    SessionFacts(w, e.p);
    ActiveEvents(w.worlds[e.p], [], e.at);
    OneKeepsSound(w, e.p, P.Pinged(e.at));
  }

  lemma ReceiveKeepsSound(w: Whole, e: Event)
    requires Sound(w) && e.Receive? && Enabled(w, e)
    ensures Sound(Next(w, e))
  {
    hide Sound, P.Next, P.Enabled;
    SessionFacts(w, e.p);
    ArrivalKeepsSession(w.worlds[e.p], e.packet, e.ackVersion);
    OneKeepsSound(w, e.p, P.Arrived(e.packet, e.ackVersion));
  }

  lemma NextKeepsSound(w: Whole, e: Event)
    requires Sound(w) && Enabled(w, e)
    ensures Sound(Next(w, e))
  {
    hide *;
    match e
    case Serve(_) => ServeKeepsSound(w, e);
    case Join(_, _, _, _, _) => JoinKeepsSound(w, e);
    case Notify(_, _) => NotifyKeepsSound(w, e);
    case LeaveRequest(_, _) => LeaveRequestKeepsSound(w, e);
    case ActiveVisit(_, _, _, _) => ActiveVisitKeepsSound(w, e);
    case LeavingVisit(_, _, _) => LeavingVisitKeepsSound(w, e);
    case Ping(_, _) => PingKeepsSound(w, e);
    case Receive(_, _, _) => ReceiveKeepsSound(w, e);
    case AckComes(_, _) => AckKeepsSound(w, e);
  }

  // Membership and protocol agree after every run of the whole server.
  lemma {:induction false} RunKeepsSound(w: Whole, es: seq<Event>)
    requires Sound(w) && Legal(w, es)
    ensures Sound(Run(w, es))
    decreases |es|
  {
    hide Sound, Enabled, Next;
    if es == [] {
    } else {
      NextKeepsSound(w, es[0]);
      RunKeepsSound(Next(w, es[0]), es[1..]);
    }
  }

  lemma StartIsSound()
    ensures Sound(Start())
  {
    R.InitialInv();
  }

  // ---- What it means ----

  // Over every run of the server, whatever the network does: each player who ever connected
  // has acknowledged a prefix of what was queued for him, in order and once, received before,
  // for as long as his counter has not wrapped around.
  lemma EveryPlayerIsServedInOrder(es: seq<Event>, p: Ref)
    requires Legal(Start(), es) && p in Run(Start(), es).worlds
    requires |Run(Start(), es).worlds[p].enqueued| <= 0x1_0000_0000
    ensures var v := Run(Start(), es).worlds[p]; var seen := P.Firsts(v.received);
      v.acked <= v.enqueued && seen <= v.enqueued && |v.acked| <= |seen| <= |v.acked| + 1
  {
    StartIsSound();
    RunKeepsSound(Start(), es);
    assert InOrder(Run(Start(), es).worlds[p]);
  }

  // Over every run: a player who is gone left nothing queued and nothing names him; a leaving
  // one mutes nobody, so that destroying him releases all of him; and the lists say which
  // sessions are active, leaving and over.
  lemma DestroyedOnlyWhenDrained(es: seq<Event>, p: Ref)
    requires Legal(Start(), es) && p in Run(Start(), es).worlds
    ensures var w := Run(Start(), es);
      && w.worlds[p].session.phase == PhaseOf(w.st, p)
      && (p !in w.st.pl <==> w.worlds[p].session.phase == P.Destroyed)
      && (p !in w.st.pl ==> w.worlds[p].session.queue == [])
      && (!Holds(w.st.players, p) ==> R.Unnamed(w.st, p))
      && (Holds(w.st.leaving, p) ==> p in w.st.pl && Count(w.st.pl[p].muted.cells) == 0)
  {
    StartIsSound();
    RunKeepsSound(Start(), es);
    var w := Run(Start(), es);
    if !Holds(w.st.players, p) {
      R.InactiveIsUnnamed(w.st, p);
    }
    if Holds(w.st.leaving, p) {
      assert LeavingOk(w.st, p);
      NothingHeld(w.st.pl[p].muted);
    }
  }

  // Over every run: an acknowledgement, however late, reaches the session it belongs to while
  // that lives, and changes nothing at all once the player is gone.
  lemma AcksReachTheirSession(es: seq<Event>, from: Ref, a: P.Ack)
    requires Legal(Start(), es) && Enabled(Run(Start(), es), AckComes(from, a))
    ensures var w := Run(Start(), es);
      Next(w, AckComes(from, a)) == if from in w.st.pl then One(w, from, P.AckArrived(a)) else w
  {
    StartIsSound();
    RunKeepsSound(Start(), es);
    LookupFinds(Run(Start(), es), from);
  }

  // ---- Leaving ends ----

  // A session over one step of the whole server: untouched, or one step of its own.
  ghost predicate StepsTo(v: P.World, v': P.World) {
    v' == v || exists e :: P.Enabled(v, e) && v' == P.Next(v, e)
  }

  lemma StepOf(v: P.World, e: P.Event)
    requires P.Enabled(v, e)
    ensures StepsTo(v, P.Next(v, e))
  {
  }

  lemma OnlyActiveLeave(st: State, p: Ref)
    requires R.Enabled(st, R.Leave(p))
    ensures Holds(st.players, p) && p in st.pl
  {
  }

  lemma InactiveStep(w: Whole, e: Event, p: Ref)
    requires Sound(w) && Enabled(w, e) && p in w.worlds && w.worlds[p].session.phase != P.Active
    ensures p in Next(w, e).worlds && StepsTo(w.worlds[p], Next(w, e).worlds[p])
  {
    hide Inv, InOrder, StepsTo, P.Next, R.Step, R.Enabled, RemovePlayer, Destroy, P.TimedOut;
    Untouched(w.worlds[p]);
    SessionFacts(w, p);
    match e
    case Serve(_) =>
    case Join(_, _, _, _, _) =>
    case Notify(q, body) => SessionFacts(w, q);
    case LeaveRequest(q, _) =>
    case ActiveVisit(q, now, stamp, _) =>
      OnlyActiveLeave(w.st, q);
      SessionFacts(w, q);
    case LeavingVisit(q, now, stamp) =>
      OnlyLeaving(w, q);
      StepOf(w.worlds[q], P.SenderPass(now, stamp, []));
    case Ping(q, _) => SessionFacts(w, q);
    case Receive(q, packet, v) => StepOf(w.worlds[q], P.Arrived(packet, v));
    case AckComes(from, a) =>
      LookupFinds(w, from);
      hide Lookup;
      StepOf(w.worlds[from], P.AckArrived(a));
  }

  lemma Untouched(v: P.World)
    ensures StepsTo(v, v)
  {
  }

  lemma InactiveSessions(v: P.World, v': P.World)
    requires v.session.phase != P.Active && StepsTo(v, v')
    ensures v'.session.phase != P.Active && v'.session.lastPing == v.session.lastPing
    ensures |v'.session.queue| <= |v.session.queue|
    ensures v.session.phase == P.Destroyed ==> v'.session.phase == P.Destroyed
  {
    hide P.Due, P.Outgoing;
  }

  // A visit of the sender to a leaving player eleven seconds or more after his last ping.
  predicate OverdueVisit(e: Event, p: Ref, lastPing: int) {
    e.LeavingVisit? && e.p == p && e.now - lastPing >= 11_000_000
  }

  lemma OverdueVisitDestroys(w: Whole, e: Event, p: Ref)
    requires Sound(w) && Enabled(w, e) && p in w.worlds && OverdueVisit(e, p, w.worlds[p].session.lastPing)
    ensures p in Next(w, e).worlds && Next(w, e).worlds[p].session.phase == P.Destroyed
  {
    hide Sound, P.Next, P.Due, P.TimedOut, Destroy, L.Acts;
    OnlyLeaving(w, p);
    L.LatePassActs(w.worlds[p], P.SenderPass(e.now, e.stamp, []));
  }

  // Over every run from the moment a player is leaving, whatever the rest of the server does:
  // he never comes back, his queue never grows, his last ping stands still, and the first visit
  // eleven seconds after it, if none before, destroys him. So the wait for the leaving list to
  // empty ends.
  lemma {:induction false} LeavingEnds(w: Whole, es: seq<Event>, p: Ref)
    requires Sound(w) && Legal(w, es) && p in w.worlds && w.worlds[p].session.phase != P.Active
    ensures p in Run(w, es).worlds
    ensures var s, s' := w.worlds[p].session, Run(w, es).worlds[p].session;
      && s'.phase != P.Active && s'.lastPing == s.lastPing && |s'.queue| <= |s.queue|
      && (s.phase == P.Destroyed ==> s'.phase == P.Destroyed)
      && ((exists i :: 0 <= i < |es| && OverdueVisit(es[i], p, s.lastPing)) ==> s'.phase == P.Destroyed)
    decreases |es|
  {
    hide Sound, Enabled, Next, StepsTo, OverdueVisit;
    if es == [] {
    } else {
      var w' := Next(w, es[0]);
      NextKeepsSound(w, es[0]);
      InactiveStep(w, es[0], p);
      InactiveSessions(w.worlds[p], w'.worlds[p]);
      if OverdueVisit(es[0], p, w.worlds[p].session.lastPing) {
        OverdueVisitDestroys(w, es[0], p);
      }
      LeavingEnds(w', es[1..], p);
      if i :| 0 < i < |es| && OverdueVisit(es[i], p, w.worlds[p].session.lastPing) {
        assert es[1..][i - 1] == es[i];
      }
    }
  }
}
