/** The store of channel privileges: get_player_channel_privilege of channel.c,
    player_get_channel_privileges of player.c and player_channel_privilege.c. */
module Privileges {
  import opened Wrappers
  import opened SlotArray
  import opened Membership
  import opened MembershipInvariant

  // At most one entry of the store answers to a player.
  ghost predicate Unambiguous(cells: seq<Option<Priv>>, p: Ref, r: Player) {
    forall i, j :: 0 <= i < j < |cells| && cells[i].Some? && cells[j].Some? ==>
      !(Matches(cells[i].value, p, r) && Matches(cells[j].value, p, r))
  }

  lemma StoreIsUnambiguous(st: State, c: Ref, p: Ref)
    requires c in st.ch && PrivsOk(st, c) && p in st.pl && (st.pl[p].registered <==> st.pl[p].reg.Some?)
    ensures Unambiguous(st.ch[c].privs.cells, p, st.pl[p])
  {
    var cells := st.ch[c].privs.cells;
    forall i, j | 0 <= i < j < |cells| && cells[i].Some? && cells[j].Some?
      ensures !(Matches(cells[i].value, p, st.pl[p]) && Matches(cells[j].value, p, st.pl[p]))
    {
      assert EntryOk(st, c, cells[i].value) && EntryOk(st, c, cells[j].value);
    }
  }

  // Reading back to front, an entry is found unless a later one answers too.
  lemma {:induction false} ReadFinds(cells: seq<Option<Priv>>, p: Ref, r: Player, i: nat)
    requires i < |cells| && cells[i].Some? && Matches(cells[i].value, p, r)
    requires forall k :: i < k < |cells| && cells[k].Some? ==> !Matches(cells[k].value, p, r)
    ensures ReadFlags(cells, p, r) == cells[i].value.flags
    decreases |cells|
  {
    if i < |cells| - 1 {
      ReadFinds(cells[..|cells| - 1], p, r, i);
    }
  }

  lemma {:induction false} ReadNothing(cells: seq<Option<Priv>>, p: Ref, r: Player)
    requires forall k :: 0 <= k < |cells| && cells[k].Some? ==> !Matches(cells[k].value, p, r)
    ensures ReadFlags(cells, p, r) == {}
    decreases |cells|
  {
    if cells == [] {
    } else {
      ReadNothing(cells[..|cells| - 1], p, r);
    }
  }

  // The write path looks for the first match, the read path for the last: where the store is
  // unambiguous they agree.
  lemma FirstIsLast(cells: seq<Option<Priv>>, p: Ref, r: Player)
    requires Unambiguous(cells, p, r)
    ensures var i := FirstMatch(cells, p, r);
      ReadFlags(cells, p, r) == if i < |cells| then cells[i].value.flags else {}
  {
    var i := FirstMatch(cells, p, r);
    if i < |cells| {
      ReadFinds(cells, p, r, i);
    } else {
      ReadNothing(cells, p, r);
    }
  }

  // Two stores that show a player the same matching entries read the same.
  lemma {:induction false} SameMatchesSameRead(a: seq<Option<Priv>>, b: seq<Option<Priv>>, q: Ref, r: Player)
    requires |a| <= |b|
    requires forall k :: 0 <= k < |b| ==> Answer(b[k], q, r) == if k < |a| then Answer(a[k], q, r) else None
    ensures ReadFlags(a, q, r) == ReadFlags(b, q, r)
    decreases |b|
  {
    if b == [] {
    } else {
      var b' := b[..|b| - 1];
      if |a| == |b| {
        var a' := a[..|a| - 1];
        assert Answer(b[|b| - 1], q, r) == Answer(a[|a| - 1], q, r);
        assert forall k :: 0 <= k < |b'| ==> b'[k] == b[k] && a'[k] == a[k];
        SameMatchesSameRead(a', b', q, r);
      } else {
        assert Answer(b[|b| - 1], q, r) == None;
        assert forall k :: 0 <= k < |b'| ==> b'[k] == b[k];
        SameMatchesSameRead(a, b', q, r);
      }
    }
  }

  // The flags a slot shows a player.
  function Answer(cell: Option<Priv>, q: Ref, r: Player): Option<set<nat>> {
    if cell.Some? && Matches(cell.value, q, r) then Some(cell.value.flags) else None
  }

  // ---- Writing ----

  // What find-or-create returns an entry of: either the store as it was, or the store with one
  // new entry, which nobody answered to before; in both there is a slot for the player.
  ghost predicate Found(s: Slots<Priv>, t: Slots<Priv>, e: Priv, i: nat) {
    && |s.cells| <= |t.cells| && i < |t.cells|
    && (forall k :: 0 <= k < |t.cells| && k != i ==> t.cells[k] == if k < |s.cells| then s.cells[k] else None)
    && (t.cells[i] == Some(e) && (i < |s.cells| ==> s.cells[i] == None))
  }

  lemma CreatedEntry(s: Slots<Priv>, p: Ref, r: Player, top: Ref)
    requires FirstMatch(s.cells, p, r) == |s.cells| && HasRoom(s)
    ensures var t := FindOrCreate(s, p, r, top); var i := FirstMatch(t.cells, p, r);
      Found(s, t, NewPriv(p, r, top), i)
  {
    InsertSpec(s, NewPriv(p, r, top));
    var t, k := FindOrCreate(s, p, r, top), Target(s);
    assert forall j :: 0 <= j < |t.cells| && j != k && t.cells[j].Some? ==> !Matches(t.cells[j].value, p, r);
    var i := FirstMatch(t.cells, p, r);
    assert t.cells[k].Some? && Matches(t.cells[k].value, p, r);
    assert i == k;
  }

  // Players that share a privilege entry: the same player, or two sessions of one registration.
  predicate SameKey(p: Ref, r: Player, q: Ref, s: Player) {
    p == q || (r.registered && s.registered && r.reg == s.reg)
  }

  // Players and their registration as the membership invariant has them.
  ghost predicate Consistent(st: State, c: Ref, p: Ref) {
    && c in st.ch && PrivsOk(st, c) && Holds(st.players, p) && p in st.pl
    && (st.pl[p].registered <==> st.pl[p].reg.Some?)
  }

  // One entry's flags change: those it answers to see the change, nobody else does.
  lemma UpdatedRead(a: seq<Option<Priv>>, b: seq<Option<Priv>>, i: nat, q: Ref, r: Player)
    requires |a| == |b| && i < |a| && a[i].Some? && b[i].Some? && b[i].value.holder == a[i].value.holder
    requires forall k :: 0 <= k < |a| && k != i ==> a[k] == b[k]
    requires Unambiguous(a, q, r) || !Matches(a[i].value, q, r)
    ensures Matches(a[i].value, q, r) ==>
        ReadFlags(a, q, r) == a[i].value.flags && ReadFlags(b, q, r) == b[i].value.flags
    ensures !Matches(a[i].value, q, r) ==> ReadFlags(b, q, r) == ReadFlags(a, q, r)
  {
    if Matches(a[i].value, q, r) {
      ReadFinds(a, q, r, i);
      ReadFinds(b, q, r, i);
    } else {
      SameMatchesSameRead(a, b, q, r);
    }
  }

  // An entry that answers to one of two players answers to the other exactly when they share it.
  lemma KeysDecide(st: State, c: Ref, p: Ref, q: Ref, e: Priv)
    requires Consistent(st, c, p) && Consistent(st, c, q) && EntryOk(st, c, e)
    requires Matches(e, p, st.pl[p])
    ensures Matches(e, q, st.pl[q]) <==> SameKey(p, st.pl[p], q, st.pl[q])
  {
  }

  lemma NewEntryOk(st: State, c: Ref, p: Ref)
    requires Consistent(st, c, p)
    ensures EntryOk(st, c, NewPriv(p, st.pl[p], c)) && Matches(NewPriv(p, st.pl[p], c), p, st.pl[p])
  {
  }

  // A player with no entry shares that with whoever has his key.
  lemma NobodyAnswers(st: State, c: Ref, p: Ref, q: Ref)
    requires Consistent(st, c, p) && Consistent(st, c, q) && SameKey(p, st.pl[p], q, st.pl[q])
    requires FirstMatch(st.ch[c].privs.cells, p, st.pl[p]) == |st.ch[c].privs.cells|
    ensures forall k :: 0 <= k < |st.ch[c].privs.cells| && st.ch[c].privs.cells[k].Some? ==>
        !Matches(st.ch[c].privs.cells[k].value, q, st.pl[q])
  {
    var cells := st.ch[c].privs.cells;
    forall k | 0 <= k < |cells| && cells[k].Some? ensures !Matches(cells[k].value, q, st.pl[q]) {
      assert EntryOk(st, c, cells[k].value);
    }
  }

  // Creating the entry changes nobody's reading, and leaves one slot that answers to the player.
  lemma CreatedRead(st: State, c: Ref, p: Ref, q: Ref)
    requires Consistent(st, c, p) && Consistent(st, c, q) && HasRoom(st.ch[c].privs)
    requires FirstMatch(st.ch[c].privs.cells, p, st.pl[p]) == |st.ch[c].privs.cells|
    ensures var s, t := st.ch[c].privs, FindOrCreate(st.ch[c].privs, p, st.pl[p], c);
      var i := FirstMatch(t.cells, p, st.pl[p]);
      && i < |t.cells| && t.cells[i] == Some(NewPriv(p, st.pl[p], c))
      && ReadFlags(t.cells, q, st.pl[q]) == ReadFlags(s.cells, q, st.pl[q])
      && (Unambiguous(t.cells, q, st.pl[q]) || !Matches(t.cells[i].value, q, st.pl[q]))
  {
    var s, r, rq := st.ch[c].privs, st.pl[p], st.pl[q];
    var t, e := FindOrCreate(s, p, r, c), NewPriv(p, r, c);
    var i := FirstMatch(t.cells, p, r);
    CreatedEntry(s, p, r, c);
    NewEntryOk(st, c, p);
    KeysDecide(st, c, p, q, e);
    hide FindOrCreate, FirstMatch, ReadFlags, Matches, NewPriv, PrivsOk, EntryOk, HasRoom, SameKey;
    if SameKey(p, r, q, rq) {
      NobodyAnswers(st, c, p, q);
      ReadNothing(s.cells, q, rq);
      ReadFinds(t.cells, q, rq, i);
    } else {
      SameMatchesSameRead(s.cells, t.cells, q, rq);
    }
  }

  // After a write, the player and whoever shares his entry read the old flags with just the
  // given bits changed; everyone else reads what he read before.
  lemma WriteThenRead(st: State, c: Ref, p: Ref, q: Ref, bits: set<nat>, on: bool)
    requires Consistent(st, c, p) && Consistent(st, c, q) && HasRoom(st.ch[c].privs)
    ensures var s := st.ch[c].privs; var s' := SetFlags(s, p, st.pl[p], c, bits, on);
      var was, now := ReadFlags(s.cells, q, st.pl[q]), ReadFlags(s'.cells, q, st.pl[q]);
      now == if SameKey(p, st.pl[p], q, st.pl[q]) then (if on then was + bits else was - bits) else was
  {
    var r, rq, s := st.pl[p], st.pl[q], st.ch[c].privs;
    var t, s' := FindOrCreate(s, p, r, c), SetFlags(s, p, r, c, bits, on);
    StoreIsUnambiguous(st, c, q);
    if FirstMatch(s.cells, p, r) < |s.cells| {
      assert EntryOk(st, c, s.cells[FirstMatch(s.cells, p, r)].value);
    } else {
      CreatedRead(st, c, p, q);
      NewEntryOk(st, c, p);
    }
    var i := FirstMatch(t.cells, p, r);
    KeysDecide(st, c, p, q, t.cells[i].value);
    hide FirstMatch, ReadFlags, HasRoom, PrivsOk, Inserted;
    UpdatedRead(t.cells, s'.cells, i, q, rq);
  }

  // A write touches one slot, which is one that answers to the writer; every other entry, of
  // whoever it may be, keeps its slot and its flags, and no other slot is filled.
  lemma WriteTouchesOneSlot(s: Slots<Priv>, p: Ref, r: Player, top: Ref, bits: set<nat>, on: bool)
    requires HasRoom(s)
    ensures exists i :: TouchedAt(s.cells, SetFlags(s, p, r, top, bits, on).cells, p, r, i)
  {
    var i := FirstMatch(FindOrCreate(s, p, r, top).cells, p, r);
    if FirstMatch(s.cells, p, r) == |s.cells| {
      CreatedEntry(s, p, r, top);
    }
    hide Inserted, HasRoom;
    assert TouchedAt(s.cells, SetFlags(s, p, r, top, bits, on).cells, p, r, i);
  }

  ghost predicate TouchedAt(a: seq<Option<Priv>>, b: seq<Option<Priv>>, p: Ref, r: Player, i: nat) {
    && |a| <= |b| && i < |b| && b[i].Some? && Matches(b[i].value, p, r)
    && (i < |a| && a[i].Some? ==> a[i].value.holder == b[i].value.holder)
    && forall k :: 0 <= k < |b| && k != i ==> b[k] == if k < |a| then a[k] else None
  }

  // ---- Removing a player ----

  lemma {:induction false} SameAnswersSameRead(a: seq<Option<Priv>>, b: seq<Option<Priv>>, q: Ref, r: Player)
    requires |a| == |b| && forall k :: 0 <= k < |a| ==> Answer(a[k], q, r) == Answer(b[k], q, r)
    ensures ReadFlags(a, q, r) == ReadFlags(b, q, r)
  {
    SameMatchesSameRead(a, b, q, r);
  }

  // remove_player takes nobody else's privileges: every other active player reads on every live
  // channel what he read before.
  lemma RemoveKeepsPrivileges(st: State, p: Ref, q: Ref, d: Ref)
    requires Inv(st) && Holds(st.players, p) && HasRoom(st.leaving)
    requires Holds(st.players, q) && q != p && Holds(st.chans, d)
    ensures var st' := RemovePlayer(st, p);
      && p in st.pl && q in st.pl && q in st'.pl && d in st.ch && d in st'.ch
      && Top(st, d) in st.ch && Top(st', d) in st'.ch
      && GetPrivileges(st', q, d) == GetPrivileges(st, q, d)
  {
    hide RemovePlayer, Inv, Holds, HasRoom, ReadFlags, WellFormed;
    RemoveEffect(st, p);
    TopIsLive(st, q, d);
    var st', top := RemovePlayer(st, p), Top(st, d);
    LeftFacts(st, st', p, q, d);
    LeftFacts(st, st', p, q, top);
    hide PlayerLeft;
    var a, b := st.ch[top].privs.cells, st'.ch[top].privs.cells;
    SameAnswersSameRead(a, b, q, st.pl[q]);
    SameRegistrationSameRead(b, q, st.pl[q], st'.pl[q]);
  }

  lemma TopIsLive(st: State, q: Ref, d: Ref)
    requires Inv(st) && Holds(st.players, q) && Holds(st.chans, d)
    ensures q in st.pl && d in st.ch && Top(st, d) in st.ch && Holds(st.chans, Top(st, d))
  {
    assert PlayerOk(st, q) && ChannelOk(st, d);
  }

  lemma LeftFacts(st: State, st': State, p: Ref, q: Ref, d: Ref)
    requires PlayerLeft(st, st', p) && Holds(st.players, q) && q != p && Holds(st.chans, d)
    ensures p in st.pl && q in st.pl && q in st'.pl && st'.pl[q].reg == st.pl[q].reg
    ensures d in st.ch && d in st'.ch && st'.ch[d].parent == st.ch[d].parent
    ensures var a, b := st.ch[d].privs.cells, st'.ch[d].privs.cells;
      |a| == |b| && forall k :: 0 <= k < |a| ==> Answer(a[k], q, st.pl[q]) == Answer(b[k], q, st.pl[q])
  {
    hide Holds, WellFormed;
    assert Vacated(st.ch[d], st'.ch[d], p) && Unmuted(st.pl[q], st'.pl[q], p);
  }

  lemma {:induction false} SameRegistrationSameRead(cells: seq<Option<Priv>>, q: Ref, r: Player, s: Player)
    requires r.reg == s.reg
    ensures ReadFlags(cells, q, r) == ReadFlags(cells, q, s)
  {
    if cells == [] {
    } else {
      SameRegistrationSameRead(cells[..|cells| - 1], q, r, s);
    }
  }

  // ---- The parent's store ----

  // Privileges of a subchannel are kept by its parent, those of another channel by itself: that
  // is where reads look and writes go.
  lemma SubchannelsUseTheParent(st: State, p: Ref, c: Ref, t: Ref, bits: set<nat>, on: bool)
    requires p in st.pl && c in st.ch && t in st.ch
    requires st.ch[c].parent == Some(t) || (st.ch[c].parent == None && t == c)
    ensures Top(st, c) in st.ch && GetPrivileges(st, p, c) == ReadFlags(st.ch[t].privs.cells, p, st.pl[p])
    ensures var st' := SetPrivilege(st, p, c, bits, on);
      && t in st'.ch && st' == st.(ch := st.ch[t := st'.ch[t]])
      && st'.ch[t] == st.ch[t].(privs := SetFlags(st.ch[t].privs, p, st.pl[p], t, bits, on))
  {
    hide SetFlags, ReadFlags;
  }

  // ---- The store stays in order ----

  // st' is st with another privilege store in channel c.
  ghost predicate StoreChanged(st: State, st': State, c: Ref) {
    && c in st.ch && c in st'.ch && st' == st.(ch := st.ch[c := st'.ch[c]])
    && st'.ch[c] == st.ch[c].(privs := st'.ch[c].privs)
    && PrivsOk(st', c)
  }

  lemma StoreChangedKeepsAll(st: State, st': State, c: Ref)
    requires Inv(st) && Holds(st.chans, c) && StoreChanged(st, st', c)
    ensures Inv(st')
  {
    hide Inv, Holds, WellFormed, PrivsOk, MutesOk, ParentOk;
    SameListsKeepInv(st, st');
  }

  lemma SetFlagsKeepsStore(st: State, c: Ref, p: Ref, bits: set<nat>, on: bool)
    requires Consistent(st, c, p) && HasRoom(st.ch[c].privs)
    ensures var cells := SetFlags(st.ch[c].privs, p, st.pl[p], c, bits, on).cells;
      && cells != []
      && (forall i :: 0 <= i < |cells| && cells[i].Some? ==> EntryOk(st, c, cells[i].value))
      && (forall i, j :: 0 <= i < j < |cells| && cells[i].Some? && cells[j].Some? ==>
          cells[i].value.holder != cells[j].value.holder)
  {
    var s, r := st.ch[c].privs, st.pl[p];
    if FirstMatch(s.cells, p, r) == |s.cells| {
      CreatedEntry(s, p, r, c);
      NewEntryOk(st, c, p);
    }
    hide Inserted, HasRoom, Holds;
  }

  // player_set_channel_privilege and player_clr_channel_privilege keep the whole invariant.
  lemma SetPrivilegeKeepsInv(st: State, p: Ref, c: Ref, bits: set<nat>, on: bool)
    requires Inv(st) && Holds(st.players, p) && Holds(st.chans, c)
    requires c in st.ch && Top(st, c) in st.ch && HasRoom(st.ch[Top(st, c)].privs)
    ensures p in st.pl && Inv(SetPrivilege(st, p, c, bits, on))
  {
    var top := Top(st, c);
    assert ChannelOk(st, c) && PlayerOk(st, p) && PrivsOk(st, top);
    SetFlagsKeepsStore(st, top, p, bits, on);
    var st' := SetPrivilege(st, p, c, bits, on);
    assert forall e :: EntryOk(st, top, e) ==> EntryOk(st', top, e);
    hide SetFlags;
    StoreChangedKeepsAll(st, st', top);
  }

  // Over the whole server: a privilege written on any channel of a tree is read on all of it,
  // by the player and by other sessions of his registration, and by nobody else.
  lemma PrivilegeReadsBack(st: State, p: Ref, c: Ref, q: Ref, d: Ref, bits: set<nat>, on: bool)
    requires Inv(st) && Holds(st.players, p) && Holds(st.players, q) && Holds(st.chans, c) && Holds(st.chans, d)
    requires c in st.ch && Top(st, c) in st.ch && HasRoom(st.ch[Top(st, c)].privs)
    ensures p in st.pl && q in st.pl && d in st.ch && Top(st, d) in st.ch
    ensures var st' := SetPrivilege(st, p, c, bits, on);
      && Top(st', d) == Top(st, d) && Top(st', d) in st'.ch
      && var was, now := GetPrivileges(st, q, d), GetPrivileges(st', q, d);
      now == if Top(st, c) == Top(st, d) && SameKey(p, st.pl[p], q, st.pl[q])
             then (if on then was + bits else was - bits) else was
  {
    assert ChannelOk(st, c) && ChannelOk(st, d) && PlayerOk(st, p) && PlayerOk(st, q) && PrivsOk(st, Top(st, c));
    WriteThenRead(st, Top(st, c), p, q, bits, on);
  }
}
