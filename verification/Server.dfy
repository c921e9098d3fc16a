/** The membership functions of server.c, channel.c and the request handlers around them,
    working in place on the server's tables. */
module Server {
  import opened Wrappers
  import opened SlotArray
  import opened Ids
  import M = Membership

  type Ref = M.Ref

  class Server {
    var players: Slots<Ref>
    var leaving: Slots<Ref>
    var chans: Slots<Ref>
    var pl: map<Ref, M.Player>
    var ch: map<Ref, M.Channel>

    function State(): M.State reads this {
      M.State(players, leaving, chans, pl, ch)
    }

    // Every address in the three lists resolves.
    ghost predicate Valid() reads this {
      && (forall p :: Holds(players, p) ==> p in pl)
      && (forall p :: Holds(leaving, p) ==> p in pl)
      && (forall c :: Holds(chans, c) ==> c in ch)
    }

    // new_server
    constructor ()
      ensures State() == M.Initial()
    {
      players, leaving, chans := Slots(Nones(8), SIZE_MAX), Slots(Nones(8), SIZE_MAX), Slots(Nones(4), SIZE_MAX);
      pl, ch := map[], map[];
    }

    // ---- Lookups ----

    // get_channel_by_id
    method GetChannelById(id: nat) returns (c: Option<Ref>)
      requires Valid()
      ensures c.Some? ==> Holds(chans, c.value) && c.value in ch && ch[c.value].id == id
      ensures c.None? ==> forall d :: Holds(chans, d) ==> ch[d].id != id
    {
      for i := 0 to |chans.cells|
        invariant forall k :: 0 <= k < i && chans.cells[k].Some? ==>
            chans.cells[k].value in ch && ch[chans.cells[k].value].id != id
      {
        if chans.cells[i].Some? {
          assert Holds(chans, chans.cells[i].value);
          if ch[chans.cells[i].value].id == id {
            return chans.cells[i];
          }
        }
      }
      return None;
    }

    // get_player_by_public_id
    method GetPlayerByPublicId(id: nat) returns (p: Option<Ref>)
      requires Valid()
      ensures p.Some? ==> Holds(players, p.value) && p.value in pl && pl[p.value].publicId == id
      ensures p.None? ==> forall q :: Holds(players, q) ==> pl[q].publicId != id
    {
      p := FindPlayer(players, id, None);
    }

    // get_player_by_ids and get_leaving_player_by_ids
    method GetPlayerByIds(list: Slots<Ref>, publicId: nat, privateId: nat) returns (p: Option<Ref>)
      requires Valid() && (list == players || list == leaving)
      ensures p.Some? ==> Holds(list, p.value) && p.value in pl
      ensures p.Some? ==> pl[p.value].publicId == publicId && pl[p.value].privateId == privateId
      ensures p.None? ==> forall q :: Holds(list, q) ==> !(pl[q].publicId == publicId && pl[q].privateId == privateId)
    {
      p := FindPlayer(list, publicId, Some(privateId));
    }

    static predicate HasIds(r: M.Player, publicId: nat, privateId: Option<nat>) {
      r.publicId == publicId && (privateId.None? || r.privateId == privateId.value)
    }

    method FindPlayer(list: Slots<Ref>, publicId: nat, privateId: Option<nat>) returns (p: Option<Ref>)
      requires forall q :: Holds(list, q) ==> q in pl
      ensures p.Some? ==> Holds(list, p.value) && p.value in pl && HasIds(pl[p.value], publicId, privateId)
      ensures p.None? ==> forall q :: Holds(list, q) ==> !HasIds(pl[q], publicId, privateId)
    {
      for i := 0 to |list.cells|
        invariant forall k :: 0 <= k < i && list.cells[k].Some? ==>
            list.cells[k].value in pl && !HasIds(pl[list.cells[k].value], publicId, privateId)
      {
        if list.cells[i].Some? {
          var q := list.cells[i].value;
          assert Holds(list, q);
          if HasIds(pl[q], publicId, privateId) {
            return Some(q);
          }
        }
      }
      return None;
    }

    // ---- Channels ----

    // add_channel
    method AddChannel(c: Ref, r: M.Channel)
      requires Valid() && Fit(M.ChannelIds(State()), |chans.cells|)
      modifies this`ch, this`chans
      ensures State() == M.AddChannel(old(State()), c, r)
    {
      var isDefault := r.isDefault || Count(chans.cells) == 0;
      var newId := ScanGuarded(M.ChannelIds(State()), |chans.cells|);
      if isDefault {
        ClearDefaults();
      }
      ch := ch[c := r.(id := newId, isDefault := isDefault)];
      chans := Inserted(chans, c);
    }

    // The default flag is taken from every channel in the list.
    method ClearDefaults()
      requires Valid()
      modifies this`ch
      ensures ch == map d | d in old(ch) :: if Holds(chans, d) then old(ch)[d].(isDefault := false) else old(ch)[d]
    {
      ghost var before := ch;
      for i := 0 to |chans.cells|
        invariant ch.Keys == before.Keys
        invariant forall d :: d in ch ==>
            ch[d] == if Some(d) in chans.cells[..i] then before[d].(isDefault := false) else before[d]
      {
        assert chans.cells[..i + 1] == chans.cells[..i] + [chans.cells[i]];
        if chans.cells[i].Some? {
          var d := chans.cells[i].value;
          assert Holds(chans, d);
          ch := ch[d := ch[d].(isDefault := false)];
        }
      }
      assert chans.cells[..|chans.cells|] == chans.cells;
    }

    // get_default_channel; c is where a new channel is allocated if there is none.
    method GetDefaultChannel(c: Ref) returns (d: Ref)
      requires Valid() && Fit(M.ChannelIds(State()), |chans.cells|)
      modifies this`ch, this`chans
      ensures State() == M.WithDefault(old(State()), c)
      ensures d == M.DefaultOf(old(State()), c) && d in ch
    {
      assert chans.cells[0..] == chans.cells;
      for i := 0 to |chans.cells|
        invariant M.FindDefault(chans.cells, ch) == M.FindDefault(chans.cells[i..], ch)
      {
        assert chans.cells[i..][1..] == chans.cells[i + 1..];
        if chans.cells[i].Some? {
          assert Holds(chans, chans.cells[i].value);
          if ch[chans.cells[i].value].isDefault {
            return chans.cells[i].value;
          }
        }
      }
      AddChannel(c, M.NewChannel(true, false, 16));
      return c;
    }

    // destroy_channel_by_id
    method DestroyChannelById(id: nat) returns (c: Option<Ref>)
      requires Valid()
      modifies this`ch, this`chans
      ensures c.Some? ==> Holds(old(chans), c.value) && c.value in old(ch) && old(ch)[c.value].id == id
      ensures c.None? ==> forall d :: Holds(old(chans), d) ==> old(ch)[d].id != id
      ensures State() == if c.Some? then M.DeleteChannel(old(State()), c.value) else old(State())
      ensures c.Some? ==> Gone(old(State()), State(), c.value)
    {
      c := GetChannelById(id);
      if c.Some? {
        RemoveMembers(chans, c.value);
        ch := ch - {c.value};
        chans := Removed(chans, c.value);
      }
    }

    // The channel is off the list and its record is gone; every other one keeps its slot and its
    // record, and the players are as they were.
    static ghost predicate Gone(st: M.State, st': M.State, c: Ref) {
      && !Holds(st'.chans, c) && c !in st'.ch
      && |st'.chans.cells| == |st.chans.cells|
      && (forall i :: 0 <= i < |st.chans.cells| && st.chans.cells[i] != Some(c) ==>
          st'.chans.cells[i] == st.chans.cells[i])
      && (forall d :: d in st.ch && d != c ==> d in st'.ch && st'.ch[d] == st.ch[d])
      && (forall d :: d in st'.ch ==> d in st.ch)
      && st'.players == st.players && st'.leaving == st.leaving && st'.pl == st.pl
    }

    // c_req_delete_channel, for a requester with the right to: only a channel nobody is in goes.
    method DeleteRequest(delId: nat) returns (deleted: Option<Ref>)
      requires Valid()
      requires forall c, d :: Holds(chans, c) && Holds(chans, d) && c != d ==> ch[c].id != ch[d].id
      modifies this`ch, this`chans
      ensures deleted.Some? ==> Holds(old(chans), deleted.value) && deleted.value in old(ch)
      ensures deleted.Some? ==> old(ch)[deleted.value].id == delId && Count(old(ch)[deleted.value].players.cells) == 0
      ensures deleted.None? ==> forall d :: Holds(old(chans), d) && old(ch)[d].id == delId ==>
          Count(old(ch)[d].players.cells) > 0
      ensures State() == if deleted.Some? then M.DeleteChannel(old(State()), deleted.value) else old(State())
      ensures deleted.Some? ==> Gone(old(State()), State(), deleted.value)
    {
      var del := GetChannelById(delId);
      if del.None? || Count(ch[del.value].players.cells) > 0 {
        return None;
      }
      deleted := DestroyChannelById(delId);
    }

    // ---- Players ----

    // add_player_to_channel: he is let in, listed and pointed to the channel, or nothing changes.
    method AddPlayerToChannel(c: Ref, p: Ref) returns (ok: bool)
      requires c in ch && p in pl
      modifies this
      ensures State() == M.AddToChannel(old(State()), c, p)
      ensures ok <==> M.Admits(old(ch)[c])
      ensures !ok ==> State() == old(State())
      ensures ok ==> Joined(old(State()), State(), c, p)
    {
      InsertSpec(ch[c].players, p);
      assert ch[c := ch[c]] == ch;
      if M.IsFull(ch[c]) {
        return false;
      }
      var room := HasRoom(ch[c].players);
      if room {
        InsertMembers(ch[c].players, p);
      }
      ch := ch[c := ch[c].(players := Inserted(ch[c].players, p))];
      if room {
        pl := pl[p := pl[p].(inChan := Some(c))];
        return true;
      }
      return false;
    }

    // The player is in the channel and in its list, whose other members stay; no other channel
    // and no other player changes.
    static ghost predicate Joined(st: M.State, st': M.State, c: Ref, p: Ref) {
      && c in st.ch && c in st'.ch && p in st.pl && p in st'.pl
      && st'.pl[p].inChan == Some(c) && Holds(st'.ch[c].players, p)
      && (forall q :: q != p ==> (Holds(st'.ch[c].players, q) <==> Holds(st.ch[c].players, q)))
      && (forall d :: d in st.ch && d != c ==> d in st'.ch && st'.ch[d] == st.ch[d])
      && (forall q :: q in st.pl && q != p ==> q in st'.pl && st'.pl[q] == st.pl[q])
    }

    // add_player. Either a slot is free, and the unguarded scan for an identifier stays within
    // its table, or the byte behind the table ends it.
    method AddPlayer(p: Ref, privateId: nat, reg: Option<Ref>, c: Ref, past: bool) returns (ok: bool)
      requires Valid() && Fit(M.ChannelIds(State()), |chans.cells|) && Fit(M.PublicIds(State()), |players.cells|)
      requires Count(players.cells) < |players.cells| || !past
      modifies this
      ensures var st := M.WithDefault(old(State()), c); var d := M.DefaultOf(old(State()), c);
        && d in st.ch && State() == M.AddPlayer(st, p, M.NewPlayer(privateId, reg), d)
        && ok == M.Admits(st.ch[d])
    {
      var d := GetDefaultChannel(c);
      assert M.PublicIds(State()) == old(M.PublicIds(State()));
      var newId := ScanUnguarded(M.PublicIds(State()), |players.cells|, past);
      pl := pl[p := M.NewPlayer(privateId, reg).(publicId := newId.value)];
      players := Inserted(players, p);
      ok := AddPlayerToChannel(d, p);
    }

    // move_player. Between two channels he is listed by the new one, no longer by the old one,
    // and pointed to the new one; or he stays where he was, whatever the answer says.
    method MovePlayer(p: Ref, to: Ref) returns (result: nat)
      requires p in pl && to in ch && (pl[p].inChan.Some? ==> pl[p].inChan.value in ch)
      modifies this
      ensures State() == M.Move(old(State()), p, to)
      ensures result == M.MoveResult(old(State()), p, to)
      ensures M.Admits(old(ch)[to]) ==> result == 1
      ensures M.IsFull(old(ch)[to]) ==> result == 0
      ensures !M.Admits(old(ch)[to]) ==> State() == old(State())
      ensures M.Admits(old(ch)[to]) && old(pl)[p].inChan != Some(to) ==>
                && to in ch && p in pl && pl[p].inChan == Some(to) && Holds(ch[to].players, p)
                && var from := old(pl)[p].inChan; from.Some? ==> from.value in ch && !Holds(ch[from.value].players, p)
    {
      InsertSpec(ch[to].players, p);
      assert ch[to := ch[to]] == ch;
      if M.IsFull(ch[to]) {
        return 0;
      }
      if pl[p].inChan.None? {
        var ok := AddPlayerToChannel(to, p);
        return if ok then 1 else 0;
      }
      var from := pl[p].inChan.value;
      var room := HasRoom(ch[to].players);
      if room {
        InsertMembers(ch[to].players, p);
        RemoveMembers(ch[from].players, p);
      }
      ch := ch[to := ch[to].(players := Inserted(ch[to].players, p))];
      if room {
        ch := ch[from := ch[from].(players := Removed(ch[from].players, p))];
        pl := pl[p := pl[p].(inChan := Some(to))];
        return 1;
      }
      return 1;
    }

    // ---- Leaving ----

    // remove_player
    method RemovePlayer(p: Ref)
      requires Valid() && p in pl && pl[p].inChan.Some? && pl[p].inChan.value in ch
      modifies this
      ensures State() == M.RemovePlayer(old(State()), p)
    {
      ghost var st := State();
      RemoveMembers(st.players, p);
      hide NoDup, Inserted, Removed, M.PrivsWithout, M.RemovePlayer, Dropped, Nones;
      Delist(p);
      DropPrivileges(p);
      UnmuteEverywhere(p);
      ForgetMuted(p);
      RemovalAssembled(st, p, pl, ch);
    }

    // From the server's list to that of the leaving, and out of his channel.
    method Delist(p: Ref)
      requires p in pl && pl[p].inChan.Some? && pl[p].inChan.value in ch
      modifies this
      ensures players == Removed(old(players), p) && leaving == Inserted(old(leaving), p) && chans == old(chans)
      ensures pl == old(pl)[p := old(pl)[p].(inChan := None)]
      ensures ch.Keys == old(ch).Keys
      ensures forall d :: d in ch ==> ch[d] == Left(old(ch)[d], p, old(pl)[p].inChan == Some(d))
    {
      hide Inserted, Removed;
      var c := pl[p].inChan.value;
      players := Removed(players, p);
      leaving := Inserted(leaving, p);
      ch := ch[c := ch[c].(players := Removed(ch[c].players, p))];
      pl := pl[p := pl[p].(inChan := None)];
    }

    // The tables entry by entry are the tables of M.RemovePlayer.
    static lemma RemovalAssembled(st: M.State, p: Ref, pl: map<Ref, M.Player>, ch: map<Ref, M.Channel>)
      requires p in st.pl && st.pl[p].inChan.Some?
      requires pl.Keys == st.pl.Keys && ch.Keys == st.ch.Keys
      requires pl[p] == st.pl[p].(inChan := None, muted := st.pl[p].muted.(cells := Nones(|st.pl[p].muted.cells|)))
      requires forall q :: q in pl && q != p ==> pl[q] == Unmuting(st.pl[q], p, Holds(Removed(st.players, p), q))
      requires forall d :: d in ch ==> ch[d] == Dropped(Left(st.ch[d], p, st.pl[p].inChan == Some(d)), d, p,
        Holds(st.chans, d) && (st.ch[d].isUnregistered || !st.pl[p].registered))
      ensures M.RemovePlayer(st, p) == M.State(Removed(st.players, p), Inserted(st.leaving, p), st.chans, pl, ch)
    {
      hide Holds, Removed, Inserted, M.PrivsWithout;
      var st' := M.RemovePlayer(st, p);
      assert forall q :: q in pl ==> pl[q] == st'.pl[q];
      assert forall d :: d in ch ==> ch[d] == st'.ch[d];
    }

    static function Left(r: M.Channel, p: Ref, yes: bool): M.Channel {
      if yes then r.(players := Removed(r.players, p)) else r
    }

    static function Dropped(r: M.Channel, d: Ref, p: Ref, yes: bool): M.Channel {
      if yes then r.(privs := M.PrivsWithout(r.privs, d, p)) else r
    }

    // The loops over the channels and their privilege entries.
    method DropPrivileges(p: Ref)
      requires p in pl && forall d :: Holds(chans, d) ==> d in ch
      modifies this`ch
      ensures ch.Keys == old(ch).Keys
      ensures forall d :: d in ch ==>
          ch[d] == Dropped(old(ch)[d], d, p, Holds(chans, d) && (old(ch)[d].isUnregistered || !pl[p].registered))
    {
      ghost var before := ch;
      for i := 0 to |chans.cells|
        invariant ch.Keys == before.Keys
        invariant forall d :: d in ch ==> ch[d] == Dropped(before[d], d, p,
            Some(d) in chans.cells[..i] && (before[d].isUnregistered || !pl[p].registered))
      {
        assert chans.cells[..i + 1] == chans.cells[..i] + [chans.cells[i]];
        if chans.cells[i].Some? {
          var d := chans.cells[i].value;
          assert Holds(chans, d);
          if ch[d].isUnregistered || !pl[p].registered {
            var privs := DropEntries(ch[d].privs, d, p);
            PrivsWithoutTwice(before[d].privs, d, p);
            ch := ch[d := ch[d].(privs := privs)];
          }
        }
      }
      assert chans.cells[..|chans.cells|] == chans.cells;
    }

    static lemma PrivsWithoutTwice(s: Slots<M.Priv>, d: Ref, p: Ref)
      ensures M.PrivsWithout(M.PrivsWithout(s, d, p), d, p) == M.PrivsWithout(s, d, p)
    {
    }

    static method DropEntries(s: Slots<M.Priv>, d: Ref, p: Ref) returns (r: Slots<M.Priv>)
      ensures r == M.PrivsWithout(s, d, p)
    {
      r := s;
      for i := 0 to |s.cells|
        invariant |r.cells| == |s.cells| && r.maxSlots == s.maxSlots
        invariant forall k :: 0 <= k < |s.cells| ==>
            r.cells[k] == if k < i then M.PrivsWithout(s, d, p).cells[k] else s.cells[k]
      {
        var e := r.cells[i];
        if e.Some? && e.value.holder == M.Unregistered(p) && e.value.ch == d {
          r := r.(cells := r.cells[i := None]);
        }
      }
      assert r.cells == M.PrivsWithout(s, d, p).cells;
    }

    static function Unmuting(r: M.Player, p: Ref, yes: bool): M.Player {
      if yes then r.(muted := Removed(r.muted, p)) else r
    }

    // The loop over the players that may have muted him.
    method UnmuteEverywhere(p: Ref)
      requires forall q :: Holds(players, q) ==> q in pl
      modifies this`pl
      ensures pl.Keys == old(pl).Keys
      ensures forall q :: q in pl ==> pl[q] == Unmuting(old(pl)[q], p, Holds(players, q))
    {
      ghost var before := pl;
      for i := 0 to |players.cells|
        invariant pl.Keys == before.Keys
        invariant forall q :: q in pl ==> pl[q] == Unmuting(before[q], p, Some(q) in players.cells[..i])
      {
        assert players.cells[..i + 1] == players.cells[..i] + [players.cells[i]];
        if players.cells[i].Some? {
          var q := players.cells[i].value;
          assert Holds(players, q);
          RemoveMembers(pl[q].muted, p);
          RemoveMembers(before[q].muted, p);
          RemoveMembers(Removed(before[q].muted, p), p);
          if Holds(pl[q].muted, p) {
            pl := pl[q := pl[q].(muted := Removed(pl[q].muted, p))];
          }
        }
      }
      assert players.cells[..|players.cells|] == players.cells;
    }

    // The loop that clears his own mute list.
    method ForgetMuted(p: Ref)
      requires p in pl
      modifies this`pl
      ensures pl == old(pl)[p := old(pl)[p].(muted := old(pl)[p].muted.(cells := Nones(|old(pl)[p].muted.cells|)))]
    {
      var muted := pl[p].muted;
      ghost var before := muted;
      for i := 0 to |muted.cells|
        invariant |muted.cells| == |before.cells| && muted.maxSlots == before.maxSlots
        invariant forall k :: 0 <= k < i ==> muted.cells[k] == None
      {
        if muted.cells[i].Some? {
          muted := Removed(muted, muted.cells[i].value);
        }
      }
      assert muted.cells == Nones(|before.cells|);
      assert muted == before.(cells := Nones(|before.cells|));
      pl := pl[p := pl[p].(muted := muted)];
    }

    // The end of the second loop of the sender thread: ar_remove, then destroy_player. The player
    // is off the leaving list and forgotten, and nothing else changes; his mute list is released
    // exactly when he mutes nobody.
    method DestroyPlayer(p: Ref) returns (freed: bool)
      requires p in pl
      modifies this`leaving, this`pl
      ensures p !in pl && !Holds(leaving, p)
      ensures forall q :: q != p ==> (Holds(leaving, q) <==> Holds(old(leaving), q))
      ensures forall q :: q in old(pl) && q != p ==> q in pl && pl[q] == old(pl)[q]
      ensures forall q :: q in pl ==> q in old(pl)
      ensures freed <==> forall q :: !Holds(old(pl)[p].muted, q)
      ensures State() == M.Destroy(old(State()), p)
    {
      RemoveMembers(leaving, p);
      leaving := Removed(leaving, p);
      freed := FreeMuted(pl[p].muted);
      pl := pl - {p};
    }

    // ar_free: it goes over the slots and refuses if one is taken.
    static method FreeMuted(muted: Slots<Ref>) returns (freed: bool)
      ensures freed <==> forall q :: !Holds(muted, q)
    {
      for i := 0 to |muted.cells|
        invariant forall k :: 0 <= k < i ==> muted.cells[k] == None
      {
        if muted.cells[i].Some? {
          assert Holds(muted, muted.cells[i].value);
          return false;
        }
      }
      return true;
    }

    // ---- Requests of a player ----

    // c_req_mute_player: onOff is 1 to mute, 0 to unmute, anything else is ignored, and so is
    // a target that is the player himself or nobody.
    method MuteRequest(p: Ref, targetId: nat, onOff: nat) returns (target: Option<Ref>)
      requires Valid() && p in pl
      modifies this`pl
      ensures target.Some? ==>
          Holds(players, target.value) && target.value in old(pl) && old(pl)[target.value].publicId == targetId
      ensures target.None? ==> forall q :: Holds(players, q) ==> old(pl)[q].publicId != targetId
      ensures State() == if target.Some? && target != Some(p) && onOff <= 1
        then M.Mute(old(State()), p, target.value, onOff == 1) else old(State())
    {
      target := GetPlayerByPublicId(targetId);
      if target == Some(p) || target == None {
        return;
      }
      var q := target.value;
      if onOff == 1 {
        if !Holds(pl[p].muted, q) {
          pl := pl[p := pl[p].(muted := Inserted(pl[p].muted, q))];
        }
      } else if onOff == 0 {
        if Holds(pl[p].muted, q) {
          pl := pl[p := pl[p].(muted := Removed(pl[p].muted, q))];
        }
      }
    }

    // player_set_channel_privilege and player_clr_channel_privilege
    method SetChannelPrivilege(p: Ref, c: Ref, bits: set<nat>, on: bool)
      requires p in pl && c in ch && M.Top(State(), c) in ch
      modifies this`ch
      ensures State() == M.SetPrivilege(old(State()), p, c, bits, on)
    {
      hide M.FindOrCreate;
      var top := if ch[c].parent.Some? then ch[c].parent.value else c;
      var i := FindOrCreate(top, p);
      if i < |ch[top].privs.cells| {
        var e := ch[top].privs.cells[i].value;
        var e' := e.(flags := if on then e.flags + bits else e.flags - bits);
        ch := ch[top := ch[top].(privs := ch[top].privs.(cells := ch[top].privs.cells[i := Some(e')]))];
      }
    }

    // get_player_channel_privilege: the slot of the entry.
    method FindOrCreate(top: Ref, p: Ref) returns (i: nat)
      requires top in ch && p in pl
      modifies this`ch
      ensures ch == old(ch)[top := old(ch)[top].(privs := M.FindOrCreate(old(ch)[top].privs, p, pl[p], top))]
      ensures i == M.FirstMatch(ch[top].privs.cells, p, pl[p])
    {
      i := SearchEntry(ch[top].privs.cells, p, pl[p]);
      if i < |ch[top].privs.cells| {
        return;
      }
      ch := ch[top := ch[top].(privs := Inserted(ch[top].privs, M.NewPriv(p, pl[p], top)))];
      i := SearchEntry(ch[top].privs.cells, p, pl[p]);
    }

    static method SearchEntry(cells: seq<Option<M.Priv>>, p: Ref, r: M.Player) returns (i: nat)
      ensures i == M.FirstMatch(cells, p, r)
    {
      i := 0;
      while i < |cells|
        invariant 0 <= i <= M.FirstMatch(cells, p, r)
      {
        if cells[i].Some? && M.Matches(cells[i].value, p, r) {
          return;
        }
        assert i != M.FirstMatch(cells, p, r);
        i := i + 1;
      }
    }

    // player_get_channel_privileges: the last match wins.
    method GetChannelPrivileges(p: Ref, c: Ref) returns (flags: set<nat>)
      requires p in pl && c in ch && M.Top(State(), c) in ch
      ensures flags == M.GetPrivileges(State(), p, c)
    {
      var top := if ch[c].parent.Some? then ch[c].parent.value else c;
      var cells := ch[top].privs.cells;
      flags := {};
      for i := 0 to |cells|
        invariant flags == M.ReadFlags(cells[..i], p, pl[p])
      {
        assert cells[..i + 1][..i] == cells[..i];
        if cells[i].Some? && M.Matches(cells[i].value, p, pl[p]) {
          flags := cells[i].value.flags;
        }
      }
      assert cells[..|cells|] == cells;
    }
  }
}
