/** Runs of the server that reach the states in which add_player and move_player break their
    promises: each failure is one a client can bring about. */
module ServerLimits {
  import opened Wrappers
  import opened SlotArray
  import opened Ids
  import opened Membership
  import opened MembershipInvariant
  import opened ServerRuns

  lemma {:induction false} RunAppends(st: State, a: seq<Op>, b: seq<Op>)
    requires Legal(st, a) && Legal(Run(st, a), b)
    ensures Legal(st, a + b) && Run(st, a + b) == Run(Run(st, a), b)
    decreases |a|
  {
    hide Enabled, Step;
    if a == [] {
      assert a + b == b;
    } else {
      assert (a + b)[0] == a[0] && (a + b)[1..] == a[1..] + b;
      RunAppends(Step(st, a[0]), a[1..], b);
    }
  }

  lemma RunSingle(st: State, op: Op)
    requires Enabled(st, op)
    ensures Legal(st, [op]) && Run(st, [op]) == Step(st, op)
  {
    hide Enabled, Step;
    assert [op][1..] == [];
  }

  const HOME: Ref := 100   // the default channel
  const OTHER: Ref := 200
  const SPARE: Ref := 300  // an address nothing is at

  // Players 1 to n are connected; all but the first, who is in channel `first`, are in the default
  // channel, which has m members and room for `limit` of them.
  ghost predicate Stage(st: State, n: nat, m: nat, limit: nat, first: Ref) {
    && Count(st.players.cells) == n && |st.players.cells| == 8
    && (forall p :: p in st.pl <==> 1 <= p <= n) && (forall p :: !Holds(st.leaving, p))
    && (forall p :: p in st.pl ==> st.pl[p].inChan == Some(if p == 1 then first else HOME))
    && 0 < |st.chans.cells| <= 8 && st.chans.maxSlots == SIZE_MAX && st.chans.cells[0] == Some(HOME)
    && HOME in st.ch && (forall c :: c in st.ch ==> c == HOME || c == OTHER)
    && var r := st.ch[HOME];
    && r.isDefault && r.players.maxSlots == limit && 4 <= |r.players.cells| <= limit <= 16
    && Count(r.players.cells) == m
  }

  function Join(p: Ref): Op {
    Connect(p, 7, None, SPARE)
  }

  lemma RoomUpTo(st: State, n: nat, m: nat, limit: nat, first: Ref)
    requires Stage(st, n, m, limit, first)
    ensures DefaultOf(st, SPARE) == HOME && WithDefault(st, SPARE) == st && SPARE !in st.ch
    ensures Admits(st.ch[HOME]) <==> m < limit
  {
  }

  lemma JoinEnabled(st: State, n: nat, m: nat, limit: nat, first: Ref)
    requires Stage(st, n, m, limit, first) && n < 8 && m < limit
    ensures Enabled(st, Join(n + 1))
    ensures Step(st, Join(n + 1)) == AddPlayer(st, n + 1, NewPlayer(7, None), HOME)
  {
    RoomUpTo(st, n, m, limit, first);
    hide AddPlayer, DefaultOf, WithDefault, Admits;
  }

  // The records after a newcomer was let in.
  ghost predicate Came(st: State, st': State, p: Ref) {
    && HOME in st.ch && HOME in st'.ch && p in st'.pl && st'.pl[p].inChan == Some(HOME)
    && st'.leaving == st.leaving && st'.chans == st.chans && st'.players == Inserted(st.players, p)
    && st'.pl == st.pl[p := st'.pl[p]] && st'.ch == st.ch[HOME := st'.ch[HOME]]
    && st'.ch[HOME] == st.ch[HOME].(players := Inserted(st.ch[HOME].players, p))
  }

  lemma NewcomerComes(st: State, p: Ref, r: Player)
    requires HOME in st.ch && Admits(st.ch[HOME])
    ensures Came(st, AddPlayer(st, p, r, HOME), p)
  {
    hide Inserted, NextFree, PublicIds, Admits, IsFull;
  }

  lemma CameAdvances(st: State, st': State, n: nat, m: nat, limit: nat, first: Ref)
    requires Stage(st, n, m, limit, first) && n < 8 && m < limit && (n == 0 ==> first == HOME)
    requires Came(st, st', n + 1)
    ensures Stage(st', n + 1, m + 1, limit, first)
  {
    SlotTaken(st.players, n + 1);
    SeatTaken(st.ch[HOME].players, n + 1, limit);
    hide Inserted, Count, Holds, HasRoom;
  }

  lemma SlotTaken(s: Slots<Ref>, p: Ref)
    requires Count(s.cells) < |s.cells|
    ensures Count(Inserted(s, p).cells) == Count(s.cells) + 1 && |Inserted(s, p).cells| == |s.cells|
  {
    InsertCount(s, p);
    InsertSpec(s, p);
  }

  lemma SeatTaken(s: Slots<Ref>, p: Ref, limit: nat)
    requires s.maxSlots == limit && 4 <= |s.cells| <= limit <= 16 && Count(s.cells) < limit
    ensures Count(Inserted(s, p).cells) == Count(s.cells) + 1
    ensures Inserted(s, p).maxSlots == limit && 4 <= |Inserted(s, p).cells| <= limit
  {
    InsertCount(s, p);
    InsertSpec(s, p);
    GrownKeeps(s);
  }

  lemma JoinAdvances(st: State, n: nat, m: nat, limit: nat, first: Ref)
    requires Inv(st) && Stage(st, n, m, limit, first) && n < 8 && m < limit && (n == 0 ==> first == HOME)
    ensures Enabled(st, Join(n + 1)) && Inv(Step(st, Join(n + 1)))
    ensures Stage(Step(st, Join(n + 1)), n + 1, m + 1, limit, first)
    ensures Came(st, Step(st, Join(n + 1)), n + 1)
  {
    RoomUpTo(st, n, m, limit, first);
    JoinEnabled(st, n, m, limit, first);
    StepKeepsInv(st, Join(n + 1));
    NewcomerComes(st, n + 1, NewPlayer(7, None));
    CameAdvances(st, Step(st, Join(n + 1)), n, m, limit, first);
  }

  function Joins(n: nat, k: nat): seq<Op>
    decreases k
  {
    if k == 0 then [] else [Join(n + 1)] + Joins(n + 1, k - 1)
  }

  lemma {:induction false} JoinsAdvance(st: State, n: nat, m: nat, limit: nat, first: Ref, k: nat)
    requires Inv(st) && Stage(st, n, m, limit, first) && n + k <= 8 && m + k <= limit && (n == 0 ==> first == HOME)
    ensures Legal(st, Joins(n, k)) && Inv(Run(st, Joins(n, k)))
    ensures Stage(Run(st, Joins(n, k)), n + k, m + k, limit, first)
    decreases k
  {
    hide Inv, Stage, Enabled, Step, Came;
    if k == 0 {
    } else {
      JoinAdvances(st, n, m, limit, first);
      JoinsAdvance(Step(st, Join(n + 1)), n + 1, m + 1, limit, first, k - 1);
      assert Joins(n, k)[1..] == Joins(n + 1, k - 1);
    }
  }

  // A server with a default channel for `limit` members.
  lemma Opened(limit: nat)
    requires 4 <= limit <= 16
    ensures var op := Create(HOME, true, false, limit);
      && Enabled(Initial(), op) && Inv(Step(Initial(), op)) && Stage(Step(Initial(), op), 0, 0, limit, HOME)
      && |Step(Initial(), op).chans.cells| == 4 && OTHER !in Step(Initial(), op).ch
  {
    var st, op := Initial(), Create(HOME, true, false, limit);
    InitialInv();
    FirstChannel(limit);
    StepKeepsInv(st, op);
    NonesAreEmpty<Ref>(8);
    NonesAreEmpty<Ref>(4);
    FirstInserted();
    hide Inv, Inserted, Count, Nones, AddChannel;
  }

  lemma FirstChannel(limit: nat)
    ensures var op := Create(HOME, true, false, limit);
      var st' := AddChannel(Initial(), HOME, NewChannel(true, false, limit));
      && Enabled(Initial(), op) && Step(Initial(), op) == st'
      && st'.players == Slots(Nones(8), SIZE_MAX) && st'.leaving == Slots(Nones(8), SIZE_MAX) && st'.pl == map[]
      && st'.chans == Inserted(Slots(Nones(4), SIZE_MAX), HOME) && st'.ch.Keys == {HOME}
      && st'.ch[HOME].isDefault && st'.ch[HOME].players == Slots(Nones(4), limit)
  {
    hide Inserted;
  }

  lemma FirstInserted()
    ensures var t := Inserted(Slots(Nones(4), SIZE_MAX), HOME);
      |t.cells| == 4 && t.maxSlots == SIZE_MAX && t.cells[0] == Some(HOME)
  {
    var s: Slots<Ref> := Slots(Nones(4), SIZE_MAX);
    NonesAreEmpty<Ref>(4);
    InsertSpec(s, HOME);
    assert FirstFree(s.cells) == 0;
  }

  // ---- Moving into one's own channel ----

  // One player connects to an empty server and asks to move to the channel he is in: the server
  // accepts the request and drops him from every channel.
  lemma OwnChannelMoveIsReachable()
    ensures var ops := [Create(HOME, true, false, 4), Join(1)];
      && Legal(Initial(), ops) && var st := Run(Initial(), ops);
      && Inv(st) && Holds(st.players, 1) && Holds(st.chans, HOME) && 1 in st.pl && HOME in st.ch
      && st.pl[1].inChan == Some(HOME) && MoveResult(st, 1, HOME) == 1 && !Inv(Move(st, 1, HOME))
  {
    hide Inv, Stage, Enabled, Step, Move, MoveResult, Came;
    var op := Create(HOME, true, false, 4);
    Opened(4);
    JoinAdvances(Step(Initial(), op), 0, 0, 4, HOME);
    RunSingle(Initial(), op);
    RunSingle(Step(Initial(), op), Join(1));
    RunAppends(Initial(), [op], [Join(1)]);
    assert [op] + [Join(1)] == [op, Join(1)];
    OwnChannelMove(Step(Step(Initial(), op), Join(1)));
  }

  lemma OwnChannelMove(st: State)
    requires Inv(st) && Stage(st, 1, 1, 4, HOME)
    ensures Holds(st.players, 1) && Holds(st.chans, HOME) && 1 in st.pl && HOME in st.ch
    ensures st.pl[1].inChan == Some(HOME) && MoveResult(st, 1, HOME) == 1 && !Inv(Move(st, 1, HOME))
  {
    RoomUpTo(st, 1, 1, 4, HOME);
    assert Holds(st.players, 1) && Holds(st.chans, HOME);
    MoveExactly(st, 1, HOME);
  }

  // ---- A full default channel ----

  lemma {:induction false} OneIsCounted(cells: seq<Option<Ref>>, c: Ref)
    requires Some(c) in cells
    ensures Count(cells) > 0
  {
    ElemsAreMembers(cells, c);
  }

  // The records after another channel was added.
  ghost predicate Added(st: State, st': State) {
    && OTHER in st'.ch && st'.chans == Inserted(st.chans, OTHER) && st'.players == st.players
    && st'.leaving == st.leaving && st'.pl == st.pl && st'.ch == st.ch[OTHER := st'.ch[OTHER]]
    && !st'.ch[OTHER].isDefault && st'.ch[OTHER].players == Slots(Nones(4), 4)
  }

  lemma OtherComes(st: State)
    requires Stage(st, 0, 0, 4, HOME) && OTHER !in st.ch
    ensures Enabled(st, Create(OTHER, false, false, 4)) && Added(st, Step(st, Create(OTHER, false, false, 4)))
  {
    OneIsCounted(st.chans.cells, HOME);
    hide Inserted, NextFree, ChannelIds;
  }

  lemma AddedKeepsStage(st: State, st': State)
    requires Stage(st, 0, 0, 4, HOME) && Added(st, st') && OTHER !in st.ch && |st.chans.cells| <= 4
    ensures Stage(st', 0, 0, 4, HOME) && Admits(st'.ch[OTHER])
  {
    ListGrows(st.chans);
    NonesAreEmpty<Ref>(4);
    hide Inserted, Count, Holds, Nones;
  }

  lemma ListGrows(s: Slots<Ref>)
    requires 0 < |s.cells| <= 4 && s.maxSlots == SIZE_MAX && s.cells[0].Some?
    ensures var t := Inserted(s, OTHER); 0 < |t.cells| <= 8 && t.maxSlots == SIZE_MAX && t.cells[0] == s.cells[0]
  {
    InsertSpec(s, OTHER);
    GrownKeeps(s);
  }

  // The records after the first player went to the other channel.
  ghost predicate Went(st: State, st': State) {
    && HOME in st.ch && HOME in st'.ch && OTHER in st.ch && OTHER in st'.ch && 1 in st.pl && 1 in st'.pl
    && st'.players == st.players && st'.leaving == st.leaving && st'.chans == st.chans
    && st'.pl == st.pl[1 := st.pl[1].(inChan := Some(OTHER))]
    && (forall c :: c in st'.ch <==> c in st.ch)
    && st'.ch[HOME] == st.ch[HOME].(players := Removed(st.ch[HOME].players, 1))
  }

  lemma FirstGoes(st: State)
    requires Inv(st) && Stage(st, 1, 1, 4, HOME) && OTHER in st.ch && Admits(st.ch[OTHER])
    ensures Enabled(st, SwitchTo(1, OTHER)) && Went(st, Step(st, SwitchTo(1, OTHER)))
    ensures Holds(st.ch[HOME].players, 1) && NoDup(st.ch[HOME].players)
  {
    assert Holds(st.players, 1) && Holds(st.chans, OTHER) && Holds(st.chans, HOME);
    assert PlayerOk(st, 1) && ChannelOk(st, HOME);
    hide Inv, Inserted, Removed, Count, Holds, HasRoom, ChannelOk, PlayerOk;
  }

  lemma WentKeepsStage(st: State, st': State)
    requires Stage(st, 1, 1, 4, HOME) && Went(st, st') && Holds(st.ch[HOME].players, 1) && NoDup(st.ch[HOME].players)
    ensures Stage(st', 1, 0, 4, OTHER)
  {
    RemoveCount(st.ch[HOME].players, 1);
    hide Removed, Count, Holds, NoDup;
  }

  // Four of five players fill a default channel limited to four; the first is in another one.
  function FillHome(): seq<Op> {
    [Create(HOME, true, false, 4), Create(OTHER, false, false, 4), Join(1), SwitchTo(1, OTHER)]
  }

  lemma HomeIsFilled()
    ensures Legal(Initial(), FillHome()) && Inv(Run(Initial(), FillHome()))
    ensures Stage(Run(Initial(), FillHome()), 1, 0, 4, OTHER)
  {
    hide Inv, Stage, Enabled, Step, Admits;
    var a, b, c, d := FillHome()[0], FillHome()[1], FillHome()[2], FillHome()[3];
    Opened(4);
    var s1 := Step(Initial(), a);
    OtherComes(s1);
    StepKeepsInv(s1, b);
    var s2 := Step(s1, b);
    AddedKeepsStage(s1, s2);
    JoinAdvances(s2, 0, 0, 4, HOME);
    var s3 := Step(s2, c);
    assert s3.ch[OTHER] == s2.ch[OTHER];
    FirstGoes(s3);
    StepKeepsInv(s3, d);
    var s4 := Step(s3, d);
    WentKeepsStage(s3, s4);
    RunSingle(Initial(), a);
    RunSingle(s1, b);
    RunSingle(s2, c);
    RunSingle(s3, d);
    RunAppends(Initial(), [a], [b]);
    RunAppends(Initial(), [a] + [b], [c]);
    RunAppends(Initial(), [a] + [b] + [c], [d]);
    assert [a] + [b] + [c] + [d] == FillHome();
  }

  // With the default channel full, a sixth player becomes active without being in any channel,
  // and the first player's request to move back is answered with success although he stays.
  lemma FullDefaultChannelBreaksPromises()
    ensures var ops := FillHome() + Joins(1, 4);
      && Legal(Initial(), ops) && var st := Run(Initial(), ops);
      && Inv(st) && HasRoom(st.players) && 6 !in st.pl && DefaultOf(st, SPARE) == HOME && HOME in st.ch
      && !Inv(AddPlayer(st, 6, NewPlayer(7, None), HOME))
      && Holds(st.players, 1) && 1 in st.pl && st.pl[1].inChan == Some(OTHER) && OTHER in st.ch
      && MoveResult(st, 1, HOME) == 1 && Move(st, 1, HOME) == st
  {
    hide Inv, Stage, Enabled, Step, Admits, Move, MoveResult, AddPlayer, FillHome;
    HomeIsFilled();
    JoinsAdvance(Run(Initial(), FillHome()), 1, 0, 4, OTHER, 4);
    RunAppends(Initial(), FillHome(), Joins(1, 4));
    FullHome(Run(Initial(), FillHome() + Joins(1, 4)));
  }

  lemma FullHome(st: State)
    requires Inv(st) && Stage(st, 5, 4, 4, OTHER)
    ensures HasRoom(st.players) && 6 !in st.pl && DefaultOf(st, SPARE) == HOME && HOME in st.ch
    ensures !Inv(AddPlayer(st, 6, NewPlayer(7, None), HOME))
    ensures Holds(st.players, 1) && 1 in st.pl && st.pl[1].inChan == Some(OTHER) && OTHER in st.ch
    ensures MoveResult(st, 1, HOME) == 1 && Move(st, 1, HOME) == st
  {
    RoomUpTo(st, 5, 4, 4, OTHER);
    NewSlotsOk<Ref>(2, SIZE_MAX);
    assert Holds(st.players, 1) && Holds(st.chans, HOME) && PlayerOk(st, 1);
    AddPlayerExactly(st, 6, NewPlayer(7, None), HOME);
    RefusedMoveChangesNothing(st, 1, HOME);
  }

  // ---- The ninth player ----

  // Eight players on a new server take every slot there is: in the state they leave, the scan
  // for the identifier of a ninth reads past its table.
  lemma NinthPlayerReadsPast()
    ensures var ops := [Create(HOME, true, false, 16)] + Joins(0, 8);
      && Legal(Initial(), ops) && var st := Run(Initial(), ops);
      && Inv(st) && Count(st.players.cells) == |st.players.cells| == 8
      && Fit(PublicIds(st), 8) && NextFree(PublicIds(st), 8, 1) == 9
  {
    hide Inv, Stage, Enabled, Step, NextFree;
    var op := Create(HOME, true, false, 16);
    Opened(16);
    RunSingle(Initial(), op);
    JoinsAdvance(Step(Initial(), op), 0, 0, 16, HOME, 8);
    RunAppends(Initial(), [op], Joins(0, 8));
    FullTable(Run(Initial(), [op] + Joins(0, 8)));
  }

  lemma FullTable(st: State)
    requires Inv(st) && Stage(st, 8, 8, 16, HOME)
    ensures Count(st.players.cells) == |st.players.cells| == 8
    ensures Fit(PublicIds(st), 8) && NextFree(PublicIds(st), 8, 1) == 9
  {
    PublicIdsFit(st);
    ScanRunsPastExactly(PublicIds(st), 8);
  }
}
