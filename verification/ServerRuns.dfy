/** What holds of the server after any sequence of its membership steps. */
module ServerRuns {
  import opened Wrappers
  import opened SlotArray
  import opened Membership
  import opened MembershipInvariant
  import opened Privileges

  datatype Op =
    | Create(c: Ref, isDefault: bool, isUnregistered: bool, maxUsers: nat)
    | Attach(c: Ref, parent: Ref)
    | Delete(c: Ref)
    | Connect(p: Ref, privateId: nat, reg: Option<Ref>, c: Ref)
    | SwitchTo(p: Ref, c: Ref)
    | MuteFor(p: Ref, target: Ref, on: bool)
    | Grant(p: Ref, c: Ref, bits: set<nat>, on: bool)
    | Leave(p: Ref)
    | Drained(p: Ref)

  // When the source takes the step. New records have new addresses, and no list fills the
  // address space. The default channel must have room, a move must not go where the player
  // already is, and a deleted channel must not be a parent: outside these the source breaks its
  // own bookkeeping. Where the scan for a player identifier runs past a full table, the byte
  // behind it is taken as not being 1.
  predicate Enabled(st: State, op: Op) {
    match op
    case Create(c, _, _, _) => c !in st.ch && HasRoom(st.chans)
    case Attach(c, parent) => c in st.ch && st.ch[c].parent == None && Holds(st.chans, c) && Holds(st.chans, parent)
    case Delete(c) => Holds(st.chans, c) && forall d :: d in st.ch && d != c ==> st.ch[d].parent != Some(c)
    case Connect(p, _, reg, c) =>
      && p !in st.pl && c !in st.ch && HasRoom(st.chans) && HasRoom(st.players)
      && var d := DefaultOf(st, c);
      && d in WithDefault(st, c).ch && Admits(WithDefault(st, c).ch[d])
    case SwitchTo(p, c) =>
      && Holds(st.players, p) && Holds(st.chans, c) && p in st.pl && c in st.ch
      && (st.pl[p].inChan != Some(c) || !Admits(st.ch[c]))
    case MuteFor(p, q, _) => Holds(st.players, p) && Holds(st.players, q) && p in st.pl && HasRoom(st.pl[p].muted)
    case Grant(p, c, _, _) =>
      && Holds(st.players, p) && Holds(st.chans, c) && p in st.pl && c in st.ch
      && Top(st, c) in st.ch && HasRoom(st.ch[Top(st, c)].privs)
    case Leave(p) => Holds(st.players, p) && p in st.pl && HasRoom(st.leaving)
    case Drained(p) => Holds(st.leaving, p)
  }

  function Step(st: State, op: Op): State
    requires Enabled(st, op)
  {
    match op
    case Create(c, isDefault, isUnregistered, maxUsers) =>
        AddChannel(st, c, NewChannel(isDefault, isUnregistered, maxUsers))
    case Attach(c, parent) => AttachTo(st, c, parent)
    case Delete(c) => if c in st.ch && Count(st.ch[c].players.cells) == 0 then DeleteChannel(st, c) else st
    case Connect(p, privateId, reg, c) => AddPlayer(WithDefault(st, c), p, NewPlayer(privateId, reg), DefaultOf(st, c))
    case SwitchTo(p, c) => if st.pl[p].inChan.Some? && st.pl[p].inChan.value !in st.ch then st else Move(st, p, c)
    case MuteFor(p, q, on) => Mute(st, p, q, on)
    case Grant(p, c, bits, on) => SetPrivilege(st, p, c, bits, on)
    case Leave(p) => RemovePlayer(st, p)
    case Drained(p) => Destroy(st, p)
  }

  // channel_add_subchannel, the parent's side left out
  function AttachTo(st: State, c: Ref, parent: Ref): State
    requires c in st.ch
  {
    st.(ch := st.ch[c := st.ch[c].(parent := Some(parent))])
  }

  predicate Legal(st: State, ops: seq<Op>)
    decreases ops
  {
    ops == [] || (Enabled(st, ops[0]) && Legal(Step(st, ops[0]), ops[1..]))
  }

  function Run(st: State, ops: seq<Op>): State
    requires Legal(st, ops)
    decreases ops
  {
    if ops == [] then st else Run(Step(st, ops[0]), ops[1..])
  }

  lemma InitialInv()
    ensures Inv(Initial())
  {
    NewSlotsOk<Ref>(8, SIZE_MAX);
    NewSlotsOk<Ref>(4, SIZE_MAX);
  }

  // st' is st with another parent of channel c.
  ghost predicate Attached(st: State, st': State, c: Ref) {
    && c in st.ch && c in st'.ch && st' == st.(ch := st.ch[c := st'.ch[c]])
    && st'.ch[c] == st.ch[c].(parent := st'.ch[c].parent)
    && st'.ch[c].parent.Some? && Holds(st.chans, st'.ch[c].parent.value)
  }

  lemma AttachedKeepsAll(st: State, st': State, c: Ref)
    requires Inv(st) && Holds(st.chans, c) && Attached(st, st', c)
    ensures Inv(st')
  {
    hide Inv, Holds, WellFormed, PrivsOk, MutesOk;
    SameListsKeepInv(st, st');
  }

  lemma {:induction false} FoundDefaultIsLive(cells: seq<Option<Ref>>, ch: map<Ref, Channel>)
    ensures var d := FindDefault(cells, ch); d.Some? ==> d in cells && d.value in ch && ch[d.value].isDefault
  {
    if cells == [] {
    } else {
      FoundDefaultIsLive(cells[1..], ch);
    }
  }

  lemma ConnectKeepsInv(st: State, p: Ref, privateId: nat, reg: Option<Ref>, c: Ref)
    requires Inv(st) && Enabled(st, Connect(p, privateId, reg, c))
    ensures Inv(Step(st, Connect(p, privateId, reg, c)))
  {
    var d, st1 := DefaultOf(st, c), WithDefault(st, c);
    FoundDefaultIsLive(st.chans.cells, st.ch);
    AddChannelKeepsInv(st, c, 16, true, false);
    AddChannelEffect(st, c, NewChannel(true, false, 16));
    NewSlotsOk<Ref>(2, SIZE_MAX);
    AddPlayerExactly(st1, p, NewPlayer(privateId, reg), d);
  }

  lemma StepKeepsInv(st: State, op: Op)
    requires Inv(st) && Enabled(st, op)
    ensures Inv(Step(st, op))
  {
    hide Inv, AddChannel, AddPlayer, Move, RemovePlayer, Mute, Destroy, SetPrivilege, Admits, HasRoom, WithDefault;
    match op
    case Create(c, isDefault, isUnregistered, maxUsers) =>
        AddChannelKeepsInv(st, c, maxUsers, isDefault, isUnregistered);
    case Attach(c, parent) => AttachedKeepsAll(st, AttachTo(st, c, parent), c);
    case Delete(c) => DeleteStep(st, c);
    case Connect(p, privateId, reg, c) => ConnectKeepsInv(st, p, privateId, reg, c);
    case SwitchTo(p, c) => MoveExactly(st, p, c);
    case MuteFor(p, q, on) => MuteStep(st, p, q, on);
    case Grant(p, c, bits, on) => SetPrivilegeKeepsInv(st, p, c, bits, on);
    case Leave(p) => RemoveKeepsInv(st, p);
    case Drained(p) => DestroyKeepsInv(st, p);
  }

  lemma DeleteStep(st: State, c: Ref)
    requires Inv(st) && Enabled(st, Delete(c))
    ensures Inv(Step(st, Delete(c)))
  {
    if c in st.ch && Count(st.ch[c].players.cells) == 0 {
      DeleteKeepsInv(st, c);
    }
  }

  lemma MuteStep(st: State, p: Ref, q: Ref, on: bool)
    requires Inv(st) && Enabled(st, MuteFor(p, q, on))
    ensures Inv(Step(st, MuteFor(p, q, on)))
  {
    MuteEffect(st, p, q, on);
    MuteChangedKeepsAll(st, Mute(st, p, q, on), p);
  }

  // The membership invariant holds after every run from the start.
  lemma {:induction false} RunKeepsInv(st: State, ops: seq<Op>)
    requires Inv(st) && Legal(st, ops)
    ensures Inv(Run(st, ops))
    decreases ops
  {
    if ops == [] {
    } else {
      StepKeepsInv(st, ops[0]);
      RunKeepsInv(Step(st, ops[0]), ops[1..]);
    }
  }

  // ---- What the invariant means ----

  // In every reachable state an active player is listed by exactly one channel, there exactly
  // once, and it is the one he points to; a leaving player is listed by none.
  lemma ExactlyOneChannel(ops: seq<Op>, p: Ref)
    requires Legal(Initial(), ops)
    ensures var st := Run(Initial(), ops);
      && (Holds(st.players, p) ==>
            && !Holds(st.leaving, p) && p in st.pl && st.pl[p].inChan.Some?
            && (forall c :: Holds(st.chans, c) ==>
                c in st.ch && (Holds(st.ch[c].players, p) <==> st.pl[p].inChan == Some(c)))
            && Holds(st.chans, st.pl[p].inChan.value) && OccursOnce(st.ch[st.pl[p].inChan.value].players, p))
      && (!Holds(st.players, p) ==> forall c :: Holds(st.chans, c) ==> c in st.ch && !Holds(st.ch[c].players, p))
  {
    InitialInv();
    RunKeepsInv(Initial(), ops);
    ListedOnce(Run(Initial(), ops), p);
  }

  ghost predicate OccursOnce<T>(s: Slots<T>, x: T) {
    exists i :: 0 <= i < |s.cells| && s.cells[i] == Some(x)
      && forall j :: 0 <= j < |s.cells| && j != i ==> s.cells[j] != Some(x)
  }

  lemma ListedOnce(st: State, p: Ref)
    requires Inv(st)
    ensures Holds(st.players, p) ==>
            && !Holds(st.leaving, p) && p in st.pl && st.pl[p].inChan.Some?
            && (forall c :: Holds(st.chans, c) ==>
                c in st.ch && (Holds(st.ch[c].players, p) <==> st.pl[p].inChan == Some(c)))
            && Holds(st.chans, st.pl[p].inChan.value) && OccursOnce(st.ch[st.pl[p].inChan.value].players, p)
    ensures !Holds(st.players, p) ==> forall c :: Holds(st.chans, c) ==> c in st.ch && !Holds(st.ch[c].players, p)
  {
    forall c | Holds(st.chans, c)
      ensures c in st.ch
      ensures Holds(st.ch[c].players, p) ==> Holds(st.players, p) && p in st.pl && st.pl[p].inChan == Some(c)
    {
      assert ChannelOk(st, c);
    }
    if Holds(st.players, p) {
      assert PlayerOk(st, p);
      var c := st.pl[p].inChan.value;
      assert ChannelOk(st, c);
      var cells := st.ch[c].players.cells;
      var i :| 0 <= i < |cells| && cells[i] == Some(p);
      assert forall j :: 0 <= j < |cells| && j != i ==> cells[j] != Some(p);
    }
  }

  // Nobody's list names the player: no channel, no mute list, no privilege entry.
  ghost predicate Unnamed(st: State, p: Ref) {
    && (forall c :: Holds(st.chans, c) ==> c in st.ch && !Holds(st.ch[c].players, p))
    && (forall q :: Holds(st.players, q) || Holds(st.leaving, q) ==> q in st.pl && !Holds(st.pl[q].muted, p))
    && (forall c, i :: Holds(st.chans, c) && c in st.ch
          && 0 <= i < |st.ch[c].privs.cells| && st.ch[c].privs.cells[i].Some?
          ==> st.ch[c].privs.cells[i].value.holder != Unregistered(p))
  }

  lemma InactiveIsUnnamed(st: State, p: Ref)
    requires Inv(st) && !Holds(st.players, p)
    ensures Unnamed(st, p)
  {
    forall c | Holds(st.chans, c) ensures c in st.ch && !Holds(st.ch[c].players, p) {
      assert ChannelOk(st, c);
    }
    forall q | Holds(st.players, q) || Holds(st.leaving, q) ensures q in st.pl && !Holds(st.pl[q].muted, p) {
      if Holds(st.players, q) {
        assert PlayerOk(st, q);
      } else {
        assert LeavingOk(st, q);
      }
    }
    forall c, i | Holds(st.chans, c) && c in st.ch && 0 <= i < |st.ch[c].privs.cells| && st.ch[c].privs.cells[i].Some?
      ensures st.ch[c].privs.cells[i].value.holder != Unregistered(p)
    {
      assert PrivsOk(st, c) && EntryOk(st, c, st.ch[c].privs.cells[i].value);
    }
  }

  // From the moment a player is removed, and for good once he is destroyed, nothing refers to
  // him but the leaving list; and when he is destroyed his own mute list is empty, so all of
  // him is released.
  lemma NoReferenceToRemovedPlayers(ops: seq<Op>, p: Ref)
    requires Legal(Initial(), ops)
    ensures var st := Run(Initial(), ops);
      && (!Holds(st.players, p) ==> Unnamed(st, p))
      && (Holds(st.leaving, p) ==> p in st.pl && Count(st.pl[p].muted.cells) == 0)
      && (p !in st.pl ==> !Holds(st.players, p) && !Holds(st.leaving, p))
  {
    InitialInv();
    RunKeepsInv(Initial(), ops);
    var st := Run(Initial(), ops);
    if !Holds(st.players, p) {
      InactiveIsUnnamed(st, p);
    }
    if Holds(st.leaving, p) {
      assert LeavingOk(st, p);
      NothingHeld(st.pl[p].muted);
    }
  }

  // Identifiers of live channels and players are distinct and between 1 and the number of
  // slots, after every run.
  lemma IdentifiersFit(ops: seq<Op>)
    requires Legal(Initial(), ops)
    ensures var st := Run(Initial(), ops); Shape(st) && IdsOk(st)
  {
    InitialInv();
    RunKeepsInv(Initial(), ops);
  }

  // ---- Capacity ----

  // A channel other than the default one admits a player exactly while it has fewer members
  // than its limit, and is then still within it.
  lemma AdmitsExactlyBelowLimit(r: Channel, p: Ref)
    requires r.players.cells != [] && !r.isDefault
    ensures Admits(r) <==> Count(r.players.cells) < r.players.maxSlots
    ensures Admits(r) ==> Count(Inserted(r.players, p).cells) == Count(r.players.cells) + 1 <= r.players.maxSlots
  {
    if Admits(r) {
      InsertCount(r.players, p);
    }
  }

  // The default channel admits whoever finds a slot, free or to be grown.
  lemma DefaultAdmitsExactly(r: Channel)
    requires r.players.cells != [] && r.isDefault && Count(r.players.cells) < 0xFFFF_FFFF_FFFF_FFFF
    ensures Admits(r) <==> Count(r.players.cells) < |r.players.cells| || |r.players.cells| < r.players.maxSlots
  {
  }

  // move_player answers 1 although nothing moved exactly for a default channel whose array is
  // full and may not grow.
  lemma MoveClaimsSuccessWithoutMoving(st: State, p: Ref, to: Ref)
    requires Inv(st) && Holds(st.players, p) && Holds(st.chans, to)
    ensures p in st.pl && to in st.ch && st.pl[p].inChan.Some? && st.pl[p].inChan.value in st.ch
    ensures var full := Count(st.ch[to].players.cells) == |st.ch[to].players.cells| >= st.ch[to].players.maxSlots;
      (MoveResult(st, p, to) == 1 && Move(st, p, to).pl[p].inChan != Some(to) <==>
         st.pl[p].inChan != Some(to) && st.ch[to].isDefault && full && Count(st.ch[to].players.cells) != SIZE_MAX)
  {
    assert PlayerOk(st, p) && ChannelOk(st, to);
    InsertSpec(st.ch[to].players, p);
  }
}
