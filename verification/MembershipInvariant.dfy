/** What each step of the server keeps of the membership invariant. Every step is first
    described by its effect, and the invariant is then carried over from the effect alone. */
module MembershipInvariant {
  import opened Wrappers
  import opened SlotArray
  import opened Ids
  import opened Membership

  lemma {:induction false} ElemsDistinct<T>(cells: seq<Option<T>>)
    requires forall i, j :: 0 <= i < j < |cells| && cells[i].Some? ==> cells[i] != cells[j]
    ensures forall i, j :: 0 <= i < j < |Elems(cells)| ==> Elems(cells)[i] != Elems(cells)[j]
  {
    if cells == [] {
    } else {
      ElemsDistinct(cells[1..]);
      var rest := Elems(cells[1..]);
      forall i | 0 <= i < |rest| && cells[0].Some? ensures rest[i] != cells[0].value {
        ElemsAreMembers(cells[1..], rest[i]);
      }
    }
  }

  lemma PublicIdsFit(st: State)
    requires Shape(st) && IdsOk(st)
    ensures Fit(PublicIds(st), |st.players.cells|)
    ensures forall p :: Holds(st.players, p) ==> st.pl[p].publicId in PublicIds(st)
  {
    var live, ids := Elems(st.players.cells), PublicIds(st);
    ElemsDistinct(st.players.cells);
    forall i | 0 <= i < |live| ensures Holds(st.players, live[i]) {
      ElemsAreMembers(st.players.cells, live[i]);
    }
    forall p | Holds(st.players, p) ensures st.pl[p].publicId in ids {
      ElemsAreMembers(st.players.cells, p);
      var i :| 0 <= i < |live| && live[i] == p;
      assert ids[i] == st.pl[p].publicId;
    }
  }

  lemma ChannelIdsFit(st: State)
    requires Shape(st) && IdsOk(st)
    ensures Fit(ChannelIds(st), |st.chans.cells|)
    ensures forall c :: Holds(st.chans, c) ==> st.ch[c].id in ChannelIds(st)
  {
    var live, ids := Elems(st.chans.cells), ChannelIds(st);
    ElemsDistinct(st.chans.cells);
    forall i | 0 <= i < |live| ensures Holds(st.chans, live[i]) {
      ElemsAreMembers(st.chans.cells, live[i]);
    }
    forall c | Holds(st.chans, c) ensures st.ch[c].id in ids {
      ElemsAreMembers(st.chans.cells, c);
      var i :| 0 <= i < |live| && live[i] == c;
      assert ids[i] == st.ch[c].id;
    }
  }

  // ---- What each step keeps ----

  lemma NewSlotsOk<T>(n: nat, max: nat)
    requires n > 0
    ensures WellFormed(Slots(Nones<T>(n), max)) && Count<T>(Nones(n)) == 0
    ensures forall x: T :: !Holds(Slots(Nones<T>(n), max), x)
  {
    NonesAreEmpty<T>(n);
  }

  lemma InsertOk<T>(s: Slots<T>, x: T)
    requires WellFormed(s) && HasRoom(s) && !Holds(s, x)
    ensures WellFormed(Inserted(s, x)) && |s.cells| <= |Inserted(s, x).cells|
    ensures Count(s.cells) == |s.cells| ==> |s.cells| < |Inserted(s, x).cells|
    ensures forall y :: Holds(Inserted(s, x), y) <==> y == x || Holds(s, y)
  {
    InsertSpec(s, x);
    InsertMembers(s, x);
    GrownKeeps(s);
  }

  lemma RemoveOk<T>(s: Slots<T>, x: T)
    requires WellFormed(s)
    ensures WellFormed(Removed(s, x)) && |Removed(s, x).cells| == |s.cells|
    ensures forall y :: Holds(Removed(s, x), y) <==> y != x && Holds(s, y)
  {
    RemoveMembers(s, x);
  }

  // The identifier of a new channel is the least unused one and fits the table, grown if it
  // was full.
  lemma NewChannelId(st: State, c: Ref, r: Channel)
    requires Inv(st) && c !in st.ch && HasRoom(st.chans)
    ensures var id := AddChannel(st, c, r).ch[c].id;
      && 1 <= id <= |AddChannel(st, c, r).chans.cells|
      && (forall d :: Holds(st.chans, d) ==> st.ch[d].id != id)
      && (forall k :: 1 <= k < id ==> k in ChannelIds(st))
  {
    InsertOk(st.chans, c);
    ChannelIdsFit(st);
    AllocationKeepsFit(ChannelIds(st), |st.chans.cells|, |Inserted(st.chans, c).cells|);
  }

  // The same channel, up to its default flag.
  predicate Alike(r: Channel, s: Channel) {
    s == r.(isDefault := s.isDefault)
  }

  // st' is st with one channel more, and possibly other default flags.
  ghost predicate ChannelAdded(st: State, st': State, c: Ref) {
    && st'.players == st.players && st'.leaving == st.leaving && st'.pl == st.pl
    && WellFormed(st'.chans) && |st.chans.cells| <= |st'.chans.cells|
    && (forall d :: Holds(st'.chans, d) <==> d == c || Holds(st.chans, d))
    && (forall d :: d in st'.ch <==> d == c || d in st.ch)
    && (forall d :: d in st.ch ==> d != c && d in st'.ch && Alike(st.ch[d], st'.ch[d]))
    && c in st'.ch
  }

  lemma AddChannelRecords(st: State, c: Ref, r: Channel)
    requires c !in st.ch
    ensures var st' := AddChannel(st, c, r);
      && st'.players == st.players && st'.leaving == st.leaving && st'.pl == st.pl && st'.chans == Inserted(st.chans, c)
      && (forall d :: d in st'.ch <==> d == c || d in st.ch)
      && (forall d :: d in st.ch ==> d != c && d in st'.ch && Alike(st.ch[d], st'.ch[d]))
      && c in st'.ch && st'.ch[c].(id := r.id, isDefault := r.isDefault) == r
  {
    hide Inserted, NextFree, ChannelIds, Count, Holds;
  }

  lemma AddChannelEffect(st: State, c: Ref, r: Channel)
    requires Shape(st) && c !in st.ch && HasRoom(st.chans)
    ensures ChannelAdded(st, AddChannel(st, c, r), c)
    ensures AddChannel(st, c, r).ch[c].(id := r.id, isDefault := r.isDefault) == r
  {
    InsertOk(st.chans, c);
    AddChannelRecords(st, c, r);
    hide AddChannel, Inserted, WellFormed, HasRoom, Holds, Alike;
  }

  // A new channel starts out with the flags and the limit it was asked for, four free slots for
  // members and four for privileges, and without a parent.
  lemma CreatedRecord(st: State, c: Ref, isDefault: bool, isUnregistered: bool, maxUsers: nat)
    requires c !in st.ch
    ensures var r := AddChannel(st, c, NewChannel(isDefault, isUnregistered, maxUsers)).ch[c];
      && r.isUnregistered == isUnregistered && (isDefault ==> r.isDefault) && r.parent == None
      && r.players == Slots([None, None, None, None], maxUsers)
      && r.privs == Slots([None, None, None, None], 0xFFFF_FFFF_FFFF_FFFF)
  {
    AddChannelRecords(st, c, NewChannel(isDefault, isUnregistered, maxUsers));
    hide AddChannel;
    assert Nones<Ref>(4) == [None, None, None, None] && Nones<Priv>(4) == [None, None, None, None];
  }

  // The default flag after a channel was added: a first channel gets it in any case; a new
  // default channel takes it from every other live one; otherwise nobody's changes.
  lemma DefaultFlagMoves(st: State, c: Ref, r: Channel)
    requires Shape(st) && c !in st.ch
    ensures var st' := AddChannel(st, c, r); var takes := r.isDefault || (forall d :: !Holds(st.chans, d));
      && c in st'.ch && (st'.ch[c].isDefault <==> takes)
      && (forall d :: Holds(st.chans, d) ==> d in st'.ch && (st'.ch[d].isDefault <==> st.ch[d].isDefault && !takes))
  {
    if Count(st.chans.cells) == 0 {
      forall d ensures !Holds(st.chans, d) {
        EmptyHoldsNothing(st.chans, d);
      }
    } else if forall d :: !Holds(st.chans, d) {
      NothingHeld(st.chans);
    }
    hide Inserted, NextFree, ChannelIds, Count, NoDup;
  }

  // get_default_channel finds a live channel with the flag, the first in slot order, or there
  // is none; it then makes one that has it, for 16 members.
  lemma DefaultIsFirst(st: State, c: Ref)
    requires Shape(st)
    ensures var d := FindDefault(st.chans.cells, st.ch);
      && (d.Some? ==>
           && Holds(st.chans, d.value) && st.ch[d.value].isDefault
           && WithDefault(st, c) == st && DefaultOf(st, c) == d.value)
      && (d.None? ==>
           && (forall x :: Holds(st.chans, x) ==> !st.ch[x].isDefault)
           && WithDefault(st, c)
                == AddChannel(st, c, Channel(0, true, false, None, Slots(Nones(4), 16), Slots(Nones(4), SIZE_MAX)))
           && DefaultOf(st, c) == c)
  {
    var cells := st.chans.cells;
    FirstDefault(cells, st.ch);
    forall x | FindDefault(cells, st.ch).None? && Holds(st.chans, x) ensures !st.ch[x].isDefault {
      var i :| 0 <= i < |cells| && cells[i] == Some(x);
      assert !FlaggedAt(cells, st.ch, i);
    }
    hide AddChannel;
  }

  lemma {:induction false} FirstDefault(cells: seq<Option<Ref>>, ch: map<Ref, Channel>)
    ensures var d := FindDefault(cells, ch);
      if d.None? then forall i :: 0 <= i < |cells| ==> !FlaggedAt(cells, ch, i)
      else exists i :: 0 <= i < |cells| && cells[i] == d && FlaggedAt(cells, ch, i)
             && forall k :: 0 <= k < i ==> !FlaggedAt(cells, ch, k)
  {
    if cells == [] {
    } else {
      FirstDefault(cells[1..], ch);
      assert forall k :: 1 <= k < |cells| ==> FlaggedAt(cells, ch, k) == FlaggedAt(cells[1..], ch, k - 1);
      if !FlaggedAt(cells, ch, 0) && FindDefault(cells, ch).Some? {
        var i :| 0 <= i < |cells[1..]| && cells[1..][i] == FindDefault(cells, ch) && FlaggedAt(cells[1..], ch, i)
          && forall k :: 0 <= k < i ==> !FlaggedAt(cells[1..], ch, k);
        assert cells[i + 1] == FindDefault(cells, ch) && FlaggedAt(cells, ch, i + 1);
      }
    }
  }

  predicate FlaggedAt(cells: seq<Option<Ref>>, ch: map<Ref, Channel>, i: nat)
    requires i < |cells|
  {
    cells[i].Some? && cells[i].value in ch && ch[cells[i].value].isDefault
  }

  lemma ChannelAddedKeepsIds(st: State, st': State, c: Ref)
    requires Shape(st) && IdsOk(st) && ChannelAdded(st, st', c)
    requires 1 <= st'.ch[c].id <= |st'.chans.cells| && forall d :: Holds(st.chans, d) ==> st.ch[d].id != st'.ch[c].id
    ensures Shape(st') && IdsOk(st')
  {
    hide Holds, WellFormed;
  }

  lemma ChannelAddedKeepsChannels(st: State, st': State, c: Ref)
    requires Shape(st) && ChannelsOk(st) && ChannelAdded(st, st', c) && Shape(st')
    requires WellFormed(st'.ch[c].players) && (forall p :: !Holds(st'.ch[c].players, p)) && st'.ch[c].parent == None
    ensures ChannelsOk(st')
  {
    hide Holds, WellFormed;
    forall d | Holds(st'.chans, d) ensures ChannelOk(st', d) {
      if d != c {
        assert ChannelOk(st, d);
      }
    }
  }

  lemma ChannelAddedKeepsEntries(st: State, st': State, c: Ref)
    requires Shape(st) && EntriesOk(st) && ChannelAdded(st, st', c) && Shape(st')
    requires st'.ch[c].privs.cells != []
    requires forall i :: 0 <= i < |st'.ch[c].privs.cells| ==> st'.ch[c].privs.cells[i] == None
    ensures EntriesOk(st')
  {
    hide Holds, WellFormed;
    forall d | Holds(st'.chans, d) ensures PrivsOk(st', d) {
      if d != c {
        assert PrivsOk(st, d);
      }
    }
  }

  lemma ChannelAddedKeepsPlayers(st: State, st': State, c: Ref)
    requires Shape(st) && PlayersOk(st) && ChannelAdded(st, st', c) && Shape(st')
    ensures PlayersOk(st')
  {
    hide Holds, WellFormed;
    forall p | Holds(st'.players, p) ensures PlayerOk(st', p) {
      assert PlayerOk(st, p);
    }
    forall p | Holds(st'.leaving, p) ensures LeavingOk(st', p) {
      assert LeavingOk(st, p);
    }
  }

  lemma AddChannelKeepsInv(st: State, c: Ref, maxUsers: nat, isDefault: bool, isUnregistered: bool)
    requires Inv(st) && c !in st.ch && HasRoom(st.chans)
    ensures Inv(AddChannel(st, c, NewChannel(isDefault, isUnregistered, maxUsers)))
  {
    var r := NewChannel(isDefault, isUnregistered, maxUsers);
    var st' := AddChannel(st, c, r);
    NewSlotsOk<Ref>(4, maxUsers);
    AddChannelEffect(st, c, r);
    NewChannelId(st, c, r);
    hide ChannelsOk, EntriesOk, PlayersOk, IdsOk, ChannelAdded, Shape;
    ChannelAddedKeepsIds(st, st', c);
    ChannelAddedKeepsChannels(st, st', c);
    ChannelAddedKeepsEntries(st, st', c);
    ChannelAddedKeepsPlayers(st, st', c);
  }

  // ---- Joining ----

  // st' is st with player p more, listed by channel d.
  ghost predicate PlayerJoined(st: State, st': State, p: Ref, d: Ref) {
    && d in st.ch && p !in st.pl && p in st'.pl && d in st'.ch
    && st'.leaving == st.leaving && st'.chans == st.chans
    && WellFormed(st'.players) && |st.players.cells| <= |st'.players.cells|
    && (forall q :: Holds(st'.players, q) <==> q == p || Holds(st.players, q))
    && (forall q :: q in st'.pl <==> q == p || q in st.pl)
    && (forall q :: q in st.pl ==> q in st'.pl && st'.pl[q] == st.pl[q])
    && (forall c :: c in st'.ch <==> c in st.ch)
    && (forall c :: c in st.ch && c != d ==> c in st'.ch && st'.ch[c] == st.ch[c])
    && st'.ch[d] == st.ch[d].(players := st'.ch[d].players)
    && WellFormed(st'.ch[d].players)
    && (forall q :: Holds(st'.ch[d].players, q) <==> q == p || Holds(st.ch[d].players, q))
    && st'.pl[p].inChan == Some(d) && WellFormed(st'.pl[p].muted)
    && (forall q :: !Holds(st'.pl[p].muted, q)) && (st'.pl[p].registered <==> st'.pl[p].reg.Some?)
  }

  // What a player record looks like before add_player.
  ghost predicate Newcomer(r: Player) {
    WellFormed(r.muted) && (forall q :: !Holds(r.muted, q)) && (r.registered <==> r.reg.Some?) && r.inChan == None
  }

  lemma AddPlayerEffect(st: State, p: Ref, r: Player, d: Ref)
    requires Shape(st) && d in st.ch && ChannelOk(st, d) && p !in st.pl
    requires HasRoom(st.players) && Admits(st.ch[d]) && Newcomer(r)
    ensures PlayerJoined(st, AddPlayer(st, p, r, d), p, d)
  {
    InsertOk(st.players, p);
    InsertOk(st.ch[d].players, p);
    hide WellFormed, Holds, Inserted, PublicIds, NextFree, HasRoom, IsFull;
  }

  // The newcomer's record is the one he came with, his registration included, up to the
  // identifier and the channel he was given.
  lemma NewcomerKeepsRecord(st: State, p: Ref, privateId: nat, reg: Option<Ref>, d: Ref)
    requires d in st.ch
    ensures var r := AddPlayer(st, p, NewPlayer(privateId, reg), d).pl[p];
      && r.privateId == privateId && r.reg == reg && (r.registered <==> reg.Some?)
      && (r.inChan == None || r.inChan == Some(d)) && forall q :: !Holds(r.muted, q)
  {
    NewSlotsOk<Ref>(2, SIZE_MAX);
    hide Inserted, NextFree, PublicIds, IsFull, HasRoom;
  }

  lemma JoinedKeepsIds(st: State, st': State, p: Ref, d: Ref)
    requires Shape(st) && IdsOk(st) && PlayerJoined(st, st', p, d)
    requires 1 <= st'.pl[p].publicId <= |st'.players.cells|
    requires forall q :: Holds(st.players, q) ==> st.pl[q].publicId != st'.pl[p].publicId
    ensures Shape(st') && IdsOk(st')
  {
    hide Holds, WellFormed;
    assert forall c :: c in st.ch ==> st'.ch[c].id == st.ch[c].id;
  }

  lemma JoinedKeepsChannels(st: State, st': State, p: Ref, d: Ref)
    requires Shape(st) && Shape(st') && ChannelsOk(st) && PlayerJoined(st, st', p, d)
    ensures ChannelsOk(st')
  {
    hide Holds, WellFormed;
    forall c | Holds(st'.chans, c) ensures ChannelOk(st', c) {
      assert ChannelOk(st, c);
    }
  }

  lemma JoinedKeepsEntries(st: State, st': State, p: Ref, d: Ref)
    requires Shape(st) && Shape(st') && EntriesOk(st) && PlayerJoined(st, st', p, d)
    ensures EntriesOk(st')
  {
    hide Holds, WellFormed;
    forall c | Holds(st'.chans, c) ensures PrivsOk(st', c) {
      assert PrivsOk(st, c) && st'.ch[c].privs == st.ch[c].privs;
    }
  }

  lemma JoinedKeepsPlayers(st: State, st': State, p: Ref, d: Ref)
    requires Shape(st) && Shape(st') && PlayersOk(st) && PlayerJoined(st, st', p, d)
    ensures PlayersOk(st')
  {
    hide Holds, WellFormed;
    forall q | Holds(st'.players, q) ensures PlayerOk(st', q) {
      if q != p {
        assert PlayerOk(st, q);
      }
    }
    forall q | Holds(st'.leaving, q) ensures LeavingOk(st', q) {
      assert LeavingOk(st, q);
    }
  }

  // The public identifier is the least unused one. While a slot is free it is within the table
  // of used ones; for a full table, if the byte behind it is not 1, it fits the grown array.
  lemma NewPublicId(st: State, p: Ref, r: Player, d: Ref)
    requires Shape(st) && IdsOk(st) && d in st.ch && p !in st.pl && HasRoom(st.players)
    ensures var id := AddPlayer(st, p, r, d).pl[p].publicId;
      && 1 <= id <= |AddPlayer(st, p, r, d).players.cells|
      && (Count(st.players.cells) < |st.players.cells| ==> id <= |st.players.cells|)
      && (forall q :: Holds(st.players, q) ==> st.pl[q].publicId != id)
      && (forall k :: 1 <= k < id ==> k in PublicIds(st))
  {
    InsertOk(st.players, p);
    PublicIdsFit(st);
    ScanRunsPastExactly(PublicIds(st), |st.players.cells|);
    AllocationKeepsFit(PublicIds(st), |st.players.cells|, |Inserted(st.players, p).cells|);
  }

  // add_player leaves the server consistent exactly when the default channel lets the
  // newcomer in; otherwise he is active without being in any channel.
  lemma AddPlayerExactly(st: State, p: Ref, r: Player, d: Ref)
    requires Inv(st) && Holds(st.chans, d) && p !in st.pl && Newcomer(r) && HasRoom(st.players)
    ensures Inv(AddPlayer(st, p, r, d)) <==> Admits(st.ch[d])
  {
    var st' := AddPlayer(st, p, r, d);
    assert ChannelOk(st, d);
    NewPublicId(st, p, r, d);
    if Admits(st.ch[d]) {
      AddPlayerEffect(st, p, r, d);
      hide ChannelsOk, EntriesOk, PlayersOk, IdsOk, Shape, AddPlayer, Newcomer, ChannelOk;
      hide PublicIds, Holds;
      assert PlayerJoined(st, st', p, d);
      JoinedKeepsAll(st, st', p, d);
    } else {
      InsertOk(st.players, p);
      assert st'.pl[p].inChan == None && Holds(st'.players, p);
    }
  }

  lemma JoinedKeepsAll(st: State, st': State, p: Ref, d: Ref)
    requires Inv(st) && PlayerJoined(st, st', p, d)
    requires 1 <= st'.pl[p].publicId <= |st'.players.cells|
    requires forall q :: Holds(st.players, q) ==> q in st.pl && st.pl[q].publicId != st'.pl[p].publicId
    ensures Inv(st')
  {
    hide Holds, ChannelsOk, EntriesOk, PlayersOk;
    JoinedKeepsIds(st, st', p, d);
    JoinedKeepsChannels(st, st', p, d);
    JoinedKeepsEntries(st, st', p, d);
    JoinedKeepsPlayers(st, st', p, d);
  }

  // ---- Moving ----

  // st' is st with player p listed by channel to and no longer by the one he was in.
  ghost predicate PlayerMoved(st: State, st': State, p: Ref, to: Ref) {
    && p in st.pl && st.pl[p].inChan.Some? && st.pl[p].inChan.value in st.ch && to in st.ch && to in st'.ch
    && var from := st.pl[p].inChan.value;
    && from != to && from in st'.ch
    && st'.players == st.players && st'.leaving == st.leaving && st'.chans == st.chans
    && st'.pl == st.pl[p := st.pl[p].(inChan := Some(to))]
    && (forall c :: c in st'.ch <==> c in st.ch)
    && (forall c :: c in st.ch && c != to && c != from ==> c in st'.ch && st'.ch[c] == st.ch[c])
    && st'.ch[to] == st.ch[to].(players := st'.ch[to].players)
    && st'.ch[from] == st.ch[from].(players := st'.ch[from].players)
    && WellFormed(st'.ch[to].players) && WellFormed(st'.ch[from].players)
    && (forall q :: Holds(st'.ch[to].players, q) <==> q == p || Holds(st.ch[to].players, q))
    && (forall q :: Holds(st'.ch[from].players, q) <==> q != p && Holds(st.ch[from].players, q))
  }

  lemma MoveEffect(st: State, p: Ref, to: Ref)
    requires Shape(st) && ChannelsOk(st) && Holds(st.players, p) && PlayerOk(st, p) && to in st.ch
    requires Admits(st.ch[to]) && st.pl[p].inChan != Some(to)
    ensures PlayerMoved(st, Move(st, p, to), p, to)
  {
    var from := st.pl[p].inChan.value;
    assert ChannelOk(st, from) && ChannelOk(st, to);
    InsertOk(st.ch[to].players, p);
    RemoveOk(st.ch[from].players, p);
  }

  lemma MovedKeepsShape(st: State, st': State, p: Ref, to: Ref)
    requires Shape(st) && IdsOk(st) && PlayerMoved(st, st', p, to)
    ensures Shape(st') && IdsOk(st')
  {
    hide Holds, WellFormed;
    assert forall c :: c in st.ch ==> st'.ch[c].id == st.ch[c].id;
    assert forall q :: q in st.pl ==> st'.pl[q].publicId == st.pl[q].publicId;
  }

  lemma MovedKeepsChannels(st: State, st': State, p: Ref, to: Ref)
    requires Shape(st) && Shape(st') && ChannelsOk(st) && PlayerMoved(st, st', p, to) && Holds(st.players, p)
    ensures ChannelsOk(st')
  {
    hide Holds, WellFormed;
    forall c | Holds(st'.chans, c) ensures ChannelOk(st', c) {
      assert ChannelOk(st, c);
    }
  }

  lemma MovedKeepsEntries(st: State, st': State, p: Ref, to: Ref)
    requires Shape(st) && Shape(st') && EntriesOk(st) && PlayerMoved(st, st', p, to)
    ensures EntriesOk(st')
  {
    hide Holds, WellFormed;
    forall c | Holds(st'.chans, c) ensures PrivsOk(st', c) {
      assert PrivsOk(st, c) && st'.ch[c].privs == st.ch[c].privs;
    }
  }

  lemma MovedKeepsPlayers(st: State, st': State, p: Ref, to: Ref)
    requires Shape(st) && Shape(st') && PlayersOk(st) && PlayerMoved(st, st', p, to) && Holds(st.players, p)
    ensures PlayersOk(st')
  {
    hide Holds, WellFormed;
    forall q | Holds(st'.players, q) ensures PlayerOk(st', q) {
      assert PlayerOk(st, q);
    }
    forall q | Holds(st'.leaving, q) ensures LeavingOk(st', q) {
      assert LeavingOk(st, q);
    }
  }

  lemma MovedKeepsAll(st: State, st': State, p: Ref, to: Ref)
    requires Inv(st) && PlayerMoved(st, st', p, to) && Holds(st.players, p)
    ensures Inv(st')
  {
    hide Holds, ChannelsOk, EntriesOk, PlayersOk;
    MovedKeepsShape(st, st', p, to);
    MovedKeepsChannels(st, st', p, to);
    MovedKeepsEntries(st, st', p, to);
    MovedKeepsPlayers(st, st', p, to);
  }

  lemma RefusedMoveChangesNothing(st: State, p: Ref, to: Ref)
    requires Inv(st) && Holds(st.players, p) && Holds(st.chans, to) && !Admits(st.ch[to])
    ensures Move(st, p, to) == st
  {
    assert PlayerOk(st, p);
    InsertSpec(st.ch[to].players, p);
  }

  lemma UnlistedPlayerBreaksInv(st: State, p: Ref)
    requires Holds(st.players, p) && p in st.pl && !PlayerOk(st, p)
    ensures !Inv(st)
  {
  }

  lemma MoveToOwnChannelLosesPlayer(st: State, p: Ref)
    requires Inv(st) && Holds(st.players, p)
    requires st.pl[p].inChan.Some? && st.pl[p].inChan.value in st.ch && Admits(st.ch[st.pl[p].inChan.value])
    ensures var c := st.pl[p].inChan.value; var st' := Move(st, p, c);
      st'.pl[p].inChan == Some(c) && Holds(st'.players, p) && !Holds(st'.ch[c].players, p)
  {
    var c := st.pl[p].inChan.value;
    RemoveMembers(Inserted(st.ch[c].players, p), p);
  }

  // move_player leaves the server consistent exactly when the destination is another channel
  // or refuses the player: moving into the channel he is already in drops him from its list.
  lemma MoveExactly(st: State, p: Ref, to: Ref)
    requires Inv(st) && Holds(st.players, p) && Holds(st.chans, to)
    ensures p in st.pl && to in st.ch && PlayerOk(st, p)
    ensures Inv(Move(st, p, to)) <==> st.pl[p].inChan != Some(to) || !Admits(st.ch[to])
  {
    assert PlayerOk(st, p);
    if !Admits(st.ch[to]) {
      RefusedMoveChangesNothing(st, p, to);
    } else if st.pl[p].inChan == Some(to) {
      MoveToOwnChannelLosesPlayer(st, p);
      UnlistedPlayerBreaksInv(Move(st, p, to), p);
    } else {
      MoveEffect(st, p, to);
      hide Move, PlayerMoved, PlayerOk;
      MovedKeepsAll(st, Move(st, p, to), p, to);
    }
  }

  // ---- Leaving ----

  // st' is st with player p leaving: out of every list but that of the leaving.
  ghost predicate PlayerLeft(st: State, st': State, p: Ref) {
    && p in st.pl && p in st'.pl && st'.chans == st.chans
    && WellFormed(st'.players) && |st'.players.cells| == |st.players.cells| && WellFormed(st'.leaving)
    && (forall q :: Holds(st'.players, q) <==> q != p && Holds(st.players, q))
    && (forall q :: Holds(st'.leaving, q) <==> q == p || Holds(st.leaving, q))
    && (forall q :: q in st'.pl <==> q in st.pl)
    && (forall c :: c in st'.ch <==> c in st.ch)
    && st'.pl[p] == st.pl[p].(inChan := None, muted := st'.pl[p].muted) && (forall q :: !Holds(st'.pl[p].muted, q))
    && (forall q :: Holds(st'.players, q) ==> q in st.pl && q in st'.pl && Unmuted(st.pl[q], st'.pl[q], p))
    && (forall q :: Holds(st.leaving, q) ==> q in st.pl && q in st'.pl && st'.pl[q] == st.pl[q])
    && (forall c :: Holds(st.chans, c) ==> c in st.ch && c in st'.ch && Vacated(st.ch[c], st'.ch[c], p))
  }

  // The same player, no longer muting p.
  ghost predicate Unmuted(r: Player, s: Player, p: Ref) {
    && s == r.(muted := s.muted) && (WellFormed(r.muted) ==> WellFormed(s.muted))
    && forall x :: Holds(s.muted, x) <==> x != p && Holds(r.muted, x)
  }

  // The same channel, no longer naming p.
  ghost predicate Vacated(r: Channel, s: Channel, p: Ref) {
    && s == r.(players := s.players, privs := s.privs)
    && WellFormed(s.players)
    && (forall q :: Holds(s.players, q) <==> q != p && Holds(r.players, q))
    && s.players.maxSlots == r.players.maxSlots && |s.players.cells| == |r.players.cells|
    && s.privs.maxSlots == r.privs.maxSlots && |s.privs.cells| == |r.privs.cells|
    && (forall i :: 0 <= i < |s.privs.cells| ==>
        s.privs.cells[i] == if IsEntryOf(r.privs.cells[i], p) then None else r.privs.cells[i])
  }

  // A privilege entry of this unregistered player, and of nobody else.
  predicate IsEntryOf(cell: Option<Priv>, p: Ref) {
    cell.Some? && cell.value.holder == Unregistered(p)
  }

  lemma RemoveVacates(st: State, p: Ref, c: Ref)
    requires Shape(st) && Holds(st.players, p) && PlayerOk(st, p)
    requires Holds(st.chans, c) && ChannelOk(st, c) && PrivsOk(st, c)
    ensures c in RemovePlayer(st, p).ch && Vacated(st.ch[c], RemovePlayer(st, p).ch[c], p)
  {
    var r, s := st.ch[c], RemovePlayer(st, p).ch[c];
    RemoveOk(r.players, p);
    forall i | 0 <= i < |s.privs.cells|
      ensures s.privs.cells[i] == if IsEntryOf(r.privs.cells[i], p) then None else r.privs.cells[i]
    {
      assert r.privs.cells[i].Some? ==> EntryOk(st, c, r.privs.cells[i].value);
    }
  }

  lemma RemoveUnmutes(r: Player, p: Ref)
    ensures Unmuted(r, r.(muted := Removed(r.muted, p)), p)
  {
    RemoveMembers(r.muted, p);
  }

  lemma RemoveVacatesAll(st: State, p: Ref)
    requires Inv(st) && Holds(st.players, p)
    ensures p in st.pl
    ensures forall c :: Holds(st.chans, c) ==>
        c in st.ch && c in RemovePlayer(st, p).ch && Vacated(st.ch[c], RemovePlayer(st, p).ch[c], p)
  {
    hide RemovePlayer, Vacated;
    forall c | Holds(st.chans, c)
      ensures c in st.ch && c in RemovePlayer(st, p).ch && Vacated(st.ch[c], RemovePlayer(st, p).ch[c], p)
    {
      assert PlayerOk(st, p) && ChannelOk(st, c) && PrivsOk(st, c);
      RemoveVacates(st, p, c);
    }
  }

  lemma RemoveUnmutesAll(st: State, p: Ref)
    requires Shape(st) && Holds(st.players, p)
    ensures var st' := RemovePlayer(st, p);
      forall q :: Holds(st'.players, q) ==> q in st.pl && q in st'.pl && Unmuted(st.pl[q], st'.pl[q], p)
  {
    var st' := RemovePlayer(st, p);
    RemoveMembers(st.players, p);
    forall q | Holds(st'.players, q) ensures q in st.pl && q in st'.pl && Unmuted(st.pl[q], st'.pl[q], p) {
      RemoveUnmutes(st.pl[q], p);
    }
  }

  lemma RemoveMovesToLeaving(st: State, p: Ref)
    requires Shape(st) && Holds(st.players, p) && HasRoom(st.leaving)
    ensures var st' := RemovePlayer(st, p);
      && p in st'.pl && st'.chans == st.chans
      && WellFormed(st'.players) && |st'.players.cells| == |st.players.cells| && WellFormed(st'.leaving)
      && (forall q :: Holds(st'.players, q) <==> q != p && Holds(st.players, q))
      && (forall q :: Holds(st'.leaving, q) <==> q == p || Holds(st.leaving, q))
  {
    RemoveOk(st.players, p);
    InsertOk(st.leaving, p);
  }

  lemma RemoveLeavesOthers(st: State, p: Ref)
    requires Shape(st) && Holds(st.players, p)
    ensures var st' := RemovePlayer(st, p);
      && p in st'.pl && st'.pl[p] == st.pl[p].(inChan := None, muted := st'.pl[p].muted)
      && (forall q :: !Holds(st'.pl[p].muted, q))
      && (forall q :: q in st'.pl <==> q in st.pl)
      && (forall c :: c in st'.ch <==> c in st.ch)
      && (forall q :: Holds(st.leaving, q) ==> q in st.pl && q in st'.pl && st'.pl[q] == st.pl[q])
  {
    hide Inserted, HasRoom, NoDup, PrivsWithout;
    RemoveMembers(st.players, p);
  }

  lemma RemoveEffect(st: State, p: Ref)
    requires Inv(st) && Holds(st.players, p) && HasRoom(st.leaving)
    ensures PlayerLeft(st, RemovePlayer(st, p), p)
  {
    hide RemovePlayer, Vacated, Unmuted, WellFormed, Holds, HasRoom, ChannelsOk, EntriesOk, PlayersOk, IdsOk;
    RemoveMovesToLeaving(st, p);
    RemoveLeavesOthers(st, p);
    RemoveVacatesAll(st, p);
    RemoveUnmutesAll(st, p);
  }

  lemma LeftKeepsShape(st: State, st': State, p: Ref)
    requires Shape(st) && IdsOk(st) && PlayerLeft(st, st', p) && Holds(st.players, p)
    ensures Shape(st') && IdsOk(st')
  {
    hide Holds, WellFormed;
  }

  lemma LeftKeepsChannels(st: State, st': State, p: Ref)
    requires Shape(st) && Shape(st') && ChannelsOk(st) && PlayerLeft(st, st', p)
    ensures ChannelsOk(st')
  {
    hide Holds, WellFormed;
    forall c | Holds(st'.chans, c) ensures ChannelOk(st', c) {
      assert ChannelOk(st, c) && Vacated(st.ch[c], st'.ch[c], p);
    }
  }

  lemma LeftKeepsEntries(st: State, st': State, p: Ref)
    requires Shape(st) && Shape(st') && EntriesOk(st) && PlayerLeft(st, st', p)
    ensures EntriesOk(st')
  {
    hide Holds, WellFormed;
    forall c | Holds(st'.chans, c) ensures PrivsOk(st', c) {
      assert PrivsOk(st, c) && Vacated(st.ch[c], st'.ch[c], p);
      var cells, cells' := st.ch[c].privs.cells, st'.ch[c].privs.cells;
      forall i | 0 <= i < |cells'| && cells'[i].Some? ensures EntryOk(st', c, cells'[i].value) {
        assert !IsEntryOf(cells[i], p) && EntryOk(st, c, cells[i].value);
      }
    }
  }

  lemma LeftKeepsPlayers(st: State, st': State, p: Ref)
    requires Shape(st) && Shape(st') && ChannelsOk(st) && PlayersOk(st) && PlayerLeft(st, st', p)
    ensures PlayersOk(st')
  {
    hide Holds, WellFormed;
    forall q | Holds(st'.players, q) ensures PlayerOk(st', q) {
      assert PlayerOk(st, q) && Unmuted(st.pl[q], st'.pl[q], p);
      var c := st.pl[q].inChan.value;
      assert Holds(st.chans, c) && Vacated(st.ch[c], st'.ch[c], p);
    }
    forall q | Holds(st'.leaving, q) ensures LeavingOk(st', q) {
      if q != p {
        assert LeavingOk(st, q);
      }
    }
  }

  // remove_player
  lemma RemoveKeepsInv(st: State, p: Ref)
    requires Inv(st) && Holds(st.players, p) && HasRoom(st.leaving)
    ensures Inv(RemovePlayer(st, p)) && PlayerLeft(st, RemovePlayer(st, p), p)
  {
    RemoveEffect(st, p);
    hide RemovePlayer, Holds, ChannelsOk, EntriesOk, PlayersOk, PlayerLeft;
    var st' := RemovePlayer(st, p);
    LeftKeepsShape(st, st', p);
    LeftKeepsChannels(st, st', p);
    LeftKeepsEntries(st, st', p);
    LeftKeepsPlayers(st, st', p);
  }

  // destroy_player
  ghost predicate PlayerDestroyed(st: State, st': State, p: Ref) {
    && st'.players == st.players && st'.chans == st.chans && st'.ch == st.ch
    && WellFormed(st'.leaving)
    && (forall q :: Holds(st'.leaving, q) <==> q != p && Holds(st.leaving, q))
    && (forall q :: q in st'.pl <==> q != p && q in st.pl)
    && (forall q :: q in st'.pl ==> q in st.pl && st'.pl[q] == st.pl[q])
  }

  lemma DestroyedKeepsShape(st: State, st': State, p: Ref)
    requires Inv(st) && PlayerDestroyed(st, st', p) && Holds(st.leaving, p)
    ensures Shape(st') && IdsOk(st')
  {
    hide Holds, WellFormed, ChannelsOk, EntriesOk, PlayersOk;
  }

  lemma DestroyedKeepsChannels(st: State, st': State, p: Ref)
    requires Inv(st) && Shape(st') && PlayerDestroyed(st, st', p) && Holds(st.leaving, p)
    ensures ChannelsOk(st')
  {
    hide Holds, WellFormed, EntriesOk, PlayersOk, IdsOk;
    forall d | Holds(st'.chans, d) ensures ChannelOk(st', d) {
      assert ChannelOk(st, d);
    }
  }

  lemma DestroyedKeepsEntries(st: State, st': State, p: Ref)
    requires Inv(st) && Shape(st') && PlayerDestroyed(st, st', p) && Holds(st.leaving, p)
    ensures EntriesOk(st')
  {
    hide Holds, WellFormed, ChannelsOk, PlayersOk, IdsOk;
    forall d | Holds(st'.chans, d) ensures PrivsOk(st', d) {
      assert PrivsOk(st, d);
    }
  }

  lemma DestroyedKeepsPlayers(st: State, st': State, p: Ref)
    requires Inv(st) && Shape(st') && PlayerDestroyed(st, st', p) && Holds(st.leaving, p)
    ensures PlayersOk(st')
  {
    hide Holds, WellFormed, ChannelsOk, EntriesOk, IdsOk;
    forall q | Holds(st'.players, q) ensures PlayerOk(st', q) {
      assert PlayerOk(st, q);
    }
    forall q | Holds(st'.leaving, q) ensures LeavingOk(st', q) {
      assert LeavingOk(st, q);
    }
  }

  lemma DestroyedKeepsAll(st: State, st': State, p: Ref)
    requires Inv(st) && PlayerDestroyed(st, st', p) && Holds(st.leaving, p)
    ensures Inv(st')
  {
    DestroyedKeepsShape(st, st', p);
    DestroyedKeepsChannels(st, st', p);
    DestroyedKeepsEntries(st, st', p);
    DestroyedKeepsPlayers(st, st', p);
  }

  lemma DestroyKeepsInv(st: State, p: Ref)
    requires Inv(st) && Holds(st.leaving, p)
    ensures Inv(Destroy(st, p))
    ensures p in st.pl && Count(st.pl[p].muted.cells) == 0
  {
    RemoveOk(st.leaving, p);
    assert PlayerDestroyed(st, Destroy(st, p), p) && LeavingOk(st, p);
    DestroyedKeepsAll(st, Destroy(st, p), p);
    NothingHeld(st.pl[p].muted);
  }

  lemma {:induction false} NothingHeld<T>(s: Slots<T>)
    requires forall x :: !Holds(s, x)
    ensures Count(s.cells) == 0
    decreases |s.cells|
  {
    if s.cells == [] {
    } else {
      assert s.cells[0] in s.cells;
      if s.cells[0].Some? {
        assert Holds(s, s.cells[0].value);
      }
      var t := s.(cells := s.cells[1..]);
      forall x ensures !Holds(t, x) {
        assert Holds(t, x) ==> Holds(s, x);
      }
      NothingHeld(t);
    }
  }

  // ---- Changes that move nobody ----

  // Everybody is where he was, under the same identifiers; mute lists, parents and privilege
  // stores may have changed, each into one that is in order.
  ghost predicate SameLists(st: State, st': State) {
    && st'.players == st.players && st'.leaving == st.leaving && st'.chans == st.chans
    && (forall q :: q in st'.pl <==> q in st.pl)
    && (forall c :: c in st'.ch <==> c in st.ch)
    && (forall q :: q in st.pl ==> st'.pl[q] == st.pl[q].(muted := st'.pl[q].muted))
    && (forall c :: c in st.ch ==> st'.ch[c] == st.ch[c].(parent := st'.ch[c].parent, privs := st'.ch[c].privs))
    && (forall q :: Holds(st.players, q) && q in st'.pl ==> st'.pl[q] == st.pl[q] || MutesOk(st', q))
    && (forall q :: Holds(st.leaving, q) && q in st'.pl ==> st'.pl[q] == st.pl[q])
    && (forall c :: c in st.ch ==> st'.ch[c].parent == st.ch[c].parent || ParentOk(st', c))
    && (forall c :: c in st.ch ==> st'.ch[c].privs == st.ch[c].privs || PrivsOk(st', c))
  }

  ghost predicate MutesOk(st: State, p: Ref)
    requires p in st.pl
  {
    WellFormed(st.pl[p].muted) && forall q :: Holds(st.pl[p].muted, q) ==> Holds(st.players, q) && q != p
  }

  ghost predicate ParentOk(st: State, c: Ref)
    requires c in st.ch
  {
    st.ch[c].parent.Some? ==> Holds(st.chans, st.ch[c].parent.value)
  }

  lemma SameListsKeepShape(st: State, st': State)
    requires Shape(st) && IdsOk(st) && SameLists(st, st')
    ensures Shape(st') && IdsOk(st')
  {
    hide Holds, WellFormed, MutesOk, ParentOk, PrivsOk;
  }

  lemma SameListsKeepChannels(st: State, st': State)
    requires Shape(st) && Shape(st') && ChannelsOk(st) && SameLists(st, st')
    ensures ChannelsOk(st')
  {
    hide Holds, WellFormed, MutesOk, PrivsOk;
    forall c | Holds(st'.chans, c) ensures ChannelOk(st', c) {
      assert ChannelOk(st, c);
    }
  }

  lemma SameListsKeepEntries(st: State, st': State)
    requires Shape(st) && Shape(st') && EntriesOk(st) && SameLists(st, st')
    ensures EntriesOk(st')
  {
    hide Holds, WellFormed, MutesOk, ParentOk, EntryOk, PrivsOk;
    forall c | Holds(st'.chans, c) ensures PrivsOk(st', c) {
      assert PrivsOk(st, c);
      if st'.ch[c].privs == st.ch[c].privs {
        SamePrivsOk(st, st', c);
      }
    }
  }

  lemma SamePrivsOk(st: State, st': State, c: Ref)
    requires c in st.ch && c in st'.ch && st'.ch[c].privs == st.ch[c].privs && PrivsOk(st, c)
    requires st'.players == st.players
    requires forall q :: q in st.pl ==> q in st'.pl && st'.pl[q].registered == st.pl[q].registered
    ensures PrivsOk(st', c)
  {
    hide Holds;
  }

  lemma SameListsKeepPlayers(st: State, st': State)
    requires Shape(st) && Shape(st') && PlayersOk(st) && SameLists(st, st')
    ensures PlayersOk(st')
  {
    hide Holds, WellFormed, ParentOk, PrivsOk;
    forall q | Holds(st'.players, q) ensures PlayerOk(st', q) {
      assert PlayerOk(st, q);
    }
    forall q | Holds(st'.leaving, q) ensures LeavingOk(st', q) {
      assert LeavingOk(st, q);
    }
  }

  lemma SameListsKeepInv(st: State, st': State)
    requires Inv(st) && SameLists(st, st')
    ensures Inv(st')
  {
    hide Shape, ChannelsOk, EntriesOk, PlayersOk, IdsOk, SameLists;
    SameListsKeepShape(st, st');
    SameListsKeepChannels(st, st');
    SameListsKeepEntries(st, st');
    SameListsKeepPlayers(st, st');
  }

  // ---- Muting ----

  ghost predicate MuteChanged(st: State, st': State, p: Ref) {
    && p in st.pl && p in st'.pl && st' == st.(pl := st.pl[p := st'.pl[p]])
    && st'.pl[p] == st.pl[p].(muted := st'.pl[p].muted)
    && WellFormed(st'.pl[p].muted)
    && (forall q :: Holds(st'.pl[p].muted, q) ==> Holds(st.players, q) && q != p)
  }

  function MutedAs(muted: Slots<Ref>, q: Ref, on: bool): Slots<Ref> {
    if Holds(muted, q) == on then muted else if on then Inserted(muted, q) else Removed(muted, q)
  }

  lemma MutedAsOk(muted: Slots<Ref>, q: Ref, on: bool)
    requires WellFormed(muted) && HasRoom(muted)
    ensures WellFormed(MutedAs(muted, q, on))
    ensures Holds(MutedAs(muted, q, on), q) <==> on
    ensures forall x :: x != q ==> (Holds(MutedAs(muted, q, on), x) <==> Holds(muted, x))
  {
    if Holds(muted, q) != on {
      if on {
        InsertOk(muted, q);
      } else {
        RemoveOk(muted, q);
      }
    }
  }

  lemma MuteIsMutedAs(st: State, p: Ref, q: Ref, on: bool)
    requires p in st.pl
    ensures var st' := Mute(st, p, q, on);
      && p in st'.pl && st' == st.(pl := st.pl[p := st'.pl[p]])
      && st'.pl[p] == st.pl[p].(muted := if p == q then st.pl[p].muted else MutedAs(st.pl[p].muted, q, on))
  {
    hide Holds, Inserted, Removed;
    assert st.pl[p := st.pl[p]] == st.pl;
  }

  lemma MuteEffect(st: State, p: Ref, q: Ref, on: bool)
    requires Inv(st) && Holds(st.players, p) && Holds(st.players, q) && HasRoom(st.pl[p].muted)
    ensures MuteChanged(st, Mute(st, p, q, on), p)
    ensures p != q ==> (Holds(Mute(st, p, q, on).pl[p].muted, q) <==> on)
    ensures forall x :: x != q ==> (Holds(Mute(st, p, q, on).pl[p].muted, x) <==> Holds(st.pl[p].muted, x))
  {
    assert PlayerOk(st, p);
    MutedAsOk(st.pl[p].muted, q, on);
    MuteIsMutedAs(st, p, q, on);
    hide Holds, WellFormed, ChannelsOk, EntriesOk, PlayersOk, IdsOk, MutedAs, Mute, HasRoom;
  }

  lemma MuteChangedKeepsAll(st: State, st': State, p: Ref)
    requires Inv(st) && Holds(st.players, p) && MuteChanged(st, st', p)
    ensures Inv(st')
  {
    hide Holds, WellFormed, ChannelsOk, EntriesOk, IdsOk;
    assert PlayerOk(st, p);
    forall q | Holds(st.leaving, q) ensures q in st'.pl && st'.pl[q] == st.pl[q] {
      assert q != p;
    }
    SameListsKeepInv(st, st');
  }

  // ---- Deleting a channel ----

  ghost predicate ChannelDeleted(st: State, st': State, c: Ref) {
    && st'.players == st.players && st'.leaving == st.leaving && st'.pl == st.pl
    && WellFormed(st'.chans) && |st'.chans.cells| == |st.chans.cells|
    && (forall i :: 0 <= i < |st.chans.cells| ==>
        st'.chans.cells[i] == if st.chans.cells[i] == Some(c) then None else st.chans.cells[i])
    && (forall d :: Holds(st'.chans, d) <==> d != c && Holds(st.chans, d))
    && (forall d :: d in st'.ch <==> d != c && d in st.ch)
    && (forall d :: d in st'.ch ==> d in st.ch && st'.ch[d] == st.ch[d])
  }

  lemma DeletedKeepsShape(st: State, st': State, c: Ref)
    requires Inv(st) && ChannelDeleted(st, st', c) && Holds(st.chans, c)
    requires forall p :: !Holds(st.ch[c].players, p)
    requires forall d :: Holds(st.chans, d) && d != c ==> st.ch[d].parent != Some(c)
    ensures Shape(st') && IdsOk(st')
  {
    hide Holds, WellFormed, ChannelsOk, EntriesOk, PlayersOk;
  }

  lemma DeletedKeepsChannels(st: State, st': State, c: Ref)
    requires Inv(st) && Shape(st') && ChannelDeleted(st, st', c) && Holds(st.chans, c)
    requires forall p :: !Holds(st.ch[c].players, p)
    requires forall d :: Holds(st.chans, d) && d != c ==> st.ch[d].parent != Some(c)
    ensures ChannelsOk(st')
  {
    hide Holds, WellFormed, EntriesOk, PlayersOk, IdsOk;
    forall d | Holds(st'.chans, d) ensures ChannelOk(st', d) {
      assert ChannelOk(st, d);
    }
  }

  lemma DeletedKeepsEntries(st: State, st': State, c: Ref)
    requires Inv(st) && Shape(st') && ChannelDeleted(st, st', c) && Holds(st.chans, c)
    requires forall p :: !Holds(st.ch[c].players, p)
    requires forall d :: Holds(st.chans, d) && d != c ==> st.ch[d].parent != Some(c)
    ensures EntriesOk(st')
  {
    hide Holds, WellFormed, ChannelsOk, PlayersOk, IdsOk;
    forall d | Holds(st'.chans, d) ensures PrivsOk(st', d) {
      assert PrivsOk(st, d);
    }
  }

  lemma DeletedKeepsPlayers(st: State, st': State, c: Ref)
    requires Inv(st) && Shape(st') && ChannelDeleted(st, st', c) && Holds(st.chans, c)
    requires forall p :: !Holds(st.ch[c].players, p)
    requires forall d :: Holds(st.chans, d) && d != c ==> st.ch[d].parent != Some(c)
    ensures PlayersOk(st')
  {
    hide Holds, WellFormed, ChannelsOk, EntriesOk, IdsOk;
    forall q | Holds(st'.players, q) ensures PlayerOk(st', q) {
      assert PlayerOk(st, q);
    }
    forall q | Holds(st'.leaving, q) ensures LeavingOk(st', q) {
      assert LeavingOk(st, q);
    }
  }

  lemma DeletedKeepsAll(st: State, st': State, c: Ref)
    requires Inv(st) && ChannelDeleted(st, st', c) && Holds(st.chans, c)
    requires forall p :: !Holds(st.ch[c].players, p)
    requires forall d :: Holds(st.chans, d) && d != c ==> st.ch[d].parent != Some(c)
    ensures Inv(st')
  {
    DeletedKeepsShape(st, st', c);
    DeletedKeepsChannels(st, st', c);
    DeletedKeepsEntries(st, st', c);
    DeletedKeepsPlayers(st, st', c);
  }

  lemma {:induction false} EmptyHoldsNothing<T>(s: Slots<T>, x: T)
    requires Count(s.cells) == 0
    ensures !Holds(s, x)
  {
    ElemsAreMembers(s.cells, x);
  }

  // c_req_delete_channel, past its test that nobody is in the channel
  lemma DeleteKeepsInv(st: State, c: Ref)
    requires Inv(st) && Holds(st.chans, c) && Count(st.ch[c].players.cells) == 0
    requires forall d :: Holds(st.chans, d) && d != c ==> st.ch[d].parent != Some(c)
    ensures Inv(DeleteChannel(st, c)) && ChannelDeleted(st, DeleteChannel(st, c), c)
  {
    RemoveOk(st.chans, c);
    forall p ensures !Holds(st.ch[c].players, p) {
      EmptyHoldsNothing(st.ch[c].players, p);
    }
    assert ChannelDeleted(st, DeleteChannel(st, c), c);
    DeletedKeepsAll(st, DeleteChannel(st, c), c);
  }
}
