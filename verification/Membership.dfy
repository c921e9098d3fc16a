/** Players, leaving players, channels, mute lists and privileges of server.c, as one state and
    the steps the server takes on it. */
module Membership {
  import opened Wrappers
  import opened SlotArray
  import opened Ids

  // The address of a player, a channel or a registration.
  type Ref = nat

  // A privilege entry belongs to a registration or to one unregistered player.
  datatype Holder = Registered(reg: Option<Ref>) | Unregistered(pl: Ref)

  // A bit field is the set of its bits.
  datatype Priv = Priv(holder: Holder, ch: Ref, flags: set<nat>)

  datatype Player = Player(publicId: nat, privateId: nat, registered: bool, reg: Option<Ref>,
                           inChan: Option<Ref>, muted: Slots<Ref>)

  datatype Channel = Channel(id: nat, isDefault: bool, isUnregistered: bool, parent: Option<Ref>,
                             players: Slots<Ref>, privs: Slots<Priv>)

  datatype State = State(players: Slots<Ref>, leaving: Slots<Ref>, chans: Slots<Ref>,
                         pl: map<Ref, Player>, ch: map<Ref, Channel>)

  // ---- The invariant ----

  ghost predicate WellFormed<T>(s: Slots<T>) {
    NoDup(s) && s.cells != []
  }

  ghost predicate Shape(st: State) {
    && WellFormed(st.players) && WellFormed(st.leaving) && WellFormed(st.chans)
    && (forall p :: !(Holds(st.players, p) && Holds(st.leaving, p)))
    && (forall p :: p in st.pl <==> Holds(st.players, p) || Holds(st.leaving, p))
    && (forall c :: c in st.ch <==> Holds(st.chans, c))
  }

  // A channel lists active players that are in it, each once.
  ghost predicate ChannelOk(st: State, c: Ref)
    requires c in st.ch
  {
    var r := st.ch[c];
    && WellFormed(r.players)
    && (forall p :: Holds(r.players, p) ==> Holds(st.players, p) && p in st.pl && st.pl[p].inChan == Some(c))
    && (r.parent.Some? ==> Holds(st.chans, r.parent.value))
  }

  // An active player is listed by the one channel he is in, and mutes only other active players.
  ghost predicate PlayerOk(st: State, p: Ref)
    requires p in st.pl
  {
    var r := st.pl[p];
    && r.inChan.Some? && r.inChan.value in st.ch && Holds(st.ch[r.inChan.value].players, p)
    && WellFormed(r.muted)
    && (forall q :: Holds(r.muted, q) ==> Holds(st.players, q) && q != p)
    && (r.registered <==> r.reg.Some?)
  }

  // A leaving player is in no channel and mutes nobody.
  ghost predicate LeavingOk(st: State, p: Ref)
    requires p in st.pl
  {
    st.pl[p].inChan == None && forall q :: !Holds(st.pl[p].muted, q)
  }

  // Privilege entries name this channel, a registration or an unregistered active player, and
  // no holder has two.
  ghost predicate PrivsOk(st: State, c: Ref)
    requires c in st.ch
  {
    var cells := st.ch[c].privs.cells;
    && cells != []
    && (forall i :: 0 <= i < |cells| && cells[i].Some? ==> EntryOk(st, c, cells[i].value))
    && (forall i, j :: 0 <= i < j < |cells| && cells[i].Some? && cells[j].Some? ==>
        cells[i].value.holder != cells[j].value.holder)
  }

  ghost predicate EntryOk(st: State, c: Ref, e: Priv) {
    && e.ch == c
    && match e.holder
       case Registered(r) => r.Some?
       case Unregistered(q) => Holds(st.players, q) && q in st.pl && !st.pl[q].registered
  }

  // Identifiers are distinct and fit the tables of used ones.
  ghost predicate IdsOk(st: State)
    requires Shape(st)
  {
    && (forall p :: Holds(st.players, p) ==> 1 <= st.pl[p].publicId <= |st.players.cells|)
    && (forall p, q :: Holds(st.players, p) && Holds(st.players, q) && p != q ==>
        st.pl[p].publicId != st.pl[q].publicId)
    && (forall c :: Holds(st.chans, c) ==> 1 <= st.ch[c].id <= |st.chans.cells|)
    && (forall c, d :: Holds(st.chans, c) && Holds(st.chans, d) && c != d ==> st.ch[c].id != st.ch[d].id)
  }

  ghost predicate ChannelsOk(st: State)
    requires Shape(st)
  {
    forall c :: Holds(st.chans, c) ==> ChannelOk(st, c)
  }

  ghost predicate EntriesOk(st: State)
    requires Shape(st)
  {
    forall c :: Holds(st.chans, c) ==> PrivsOk(st, c)
  }

  ghost predicate PlayersOk(st: State)
    requires Shape(st)
  {
    && (forall p :: Holds(st.players, p) ==> PlayerOk(st, p))
    && (forall p :: Holds(st.leaving, p) ==> LeavingOk(st, p))
  }

  ghost predicate Inv(st: State) {
    Shape(st) && ChannelsOk(st) && EntriesOk(st) && PlayersOk(st) && IdsOk(st)
  }

  // ---- Identifiers of the live entries, in slot order ----

  function PublicId(st: State, p: Ref): nat {
    if p in st.pl then st.pl[p].publicId else 0
  }

  function ChannelId(st: State, c: Ref): nat {
    if c in st.ch then st.ch[c].id else 0
  }

  function PublicIds(st: State): (ids: seq<nat>)
    ensures |ids| == Count(st.players.cells)
  {
    var live := Elems(st.players.cells);
    seq(|live|, i requires 0 <= i < |live| => PublicId(st, live[i]))
  }

  function ChannelIds(st: State): (ids: seq<nat>)
    ensures |ids| == Count(st.chans.cells)
  {
    var live := Elems(st.chans.cells);
    seq(|live|, i requires 0 <= i < |live| => ChannelId(st, live[i]))
  }

  // ---- The steps ----

  // new_channel and new_player
  function NewChannel(isDefault: bool, isUnregistered: bool, maxUsers: nat): Channel {
    Channel(0, isDefault, isUnregistered, None, Slots(Nones(4), maxUsers), Slots(Nones(4), SIZE_MAX))
  }

  function NewPlayer(privateId: nat, reg: Option<Ref>): Player {
    Player(0, privateId, reg.Some?, reg, None, Slots(Nones(2), SIZE_MAX))
  }

  // new_server
  function Initial(): State {
    State(Slots(Nones(8), SIZE_MAX), Slots(Nones(8), SIZE_MAX), Slots(Nones(4), SIZE_MAX), map[], map[])
  }

  // add_channel
  function AddChannel(st: State, c: Ref, r: Channel): State
  {
    var isDefault := r.isDefault || Count(st.chans.cells) == 0;
    var others := if isDefault
      then map d | d in st.ch :: if Holds(st.chans, d) then st.ch[d].(isDefault := false) else st.ch[d]
      else st.ch;
    var id := NextFree(ChannelIds(st), |st.chans.cells|, 1);
    st.(chans := Inserted(st.chans, c), ch := others[c := r.(id := id, isDefault := isDefault)])
  }

  // The first channel in slot order with the default flag.
  function FindDefault(cells: seq<Option<Ref>>, ch: map<Ref, Channel>): Option<Ref> {
    if cells == [] then None
    else if cells[0].Some? && cells[0].value in ch && ch[cells[0].value].isDefault then cells[0]
    else FindDefault(cells[1..], ch)
  }

  // get_default_channel; the address is used if a channel has to be made.
  function WithDefault(st: State, c: Ref): State
  {
    if FindDefault(st.chans.cells, st.ch).Some? then st else AddChannel(st, c, NewChannel(true, false, 16))
  }

  function DefaultOf(st: State, c: Ref): Ref {
    var d := FindDefault(st.chans.cells, st.ch);
    if d.Some? then d.value else c
  }

  // ch_isfull
  predicate IsFull(r: Channel) {
    if r.isDefault then Count(r.players.cells) == SIZE_MAX else Count(r.players.cells) >= r.players.maxSlots
  }

  // Whether add_player_to_channel and move_player get the player in.
  predicate Admits(r: Channel) {
    !IsFull(r) && HasRoom(r.players)
  }

  // add_player_to_channel
  function AddToChannel(st: State, c: Ref, p: Ref): State
    requires c in st.ch && p in st.pl
  {
    if Admits(st.ch[c]) then
      st.(ch := st.ch[c := st.ch[c].(players := Inserted(st.ch[c].players, p))],
          pl := st.pl[p := st.pl[p].(inChan := Some(c))])
    else if IsFull(st.ch[c]) then st
    else st.(ch := st.ch[c := st.ch[c].(players := Inserted(st.ch[c].players, p))])
  }

  // add_player, on a state that has a default channel d
  function AddPlayer(st: State, p: Ref, r: Player, d: Ref): State
    requires d in st.ch
  {
    var id := NextFree(PublicIds(st), |st.players.cells|, 1);
    AddToChannel(st.(players := Inserted(st.players, p), pl := st.pl[p := r.(publicId := id)]), d, p)
  }

  // move_player
  function Move(st: State, p: Ref, to: Ref): State
    requires p in st.pl && to in st.ch
    requires st.pl[p].inChan.Some? ==> st.pl[p].inChan.value in st.ch
  {
    if IsFull(st.ch[to]) then st
    else if st.pl[p].inChan.None? then AddToChannel(st, to, p)
    else
      var from := st.pl[p].inChan.value;
      var ch1 := st.ch[to := st.ch[to].(players := Inserted(st.ch[to].players, p))];
      if HasRoom(st.ch[to].players) then
        st.(ch := ch1[from := ch1[from].(players := Removed(ch1[from].players, p))],
            pl := st.pl[p := st.pl[p].(inChan := Some(to))])
      else st.(ch := ch1)
  }

  function MoveResult(st: State, p: Ref, to: Ref): nat
    requires p in st.pl && to in st.ch
  {
    if IsFull(st.ch[to]) then 0
    else if st.pl[p].inChan.None? then (if Admits(st.ch[to]) then 1 else 0)
    else 1
  }

  // The entries of an unregistered player are dropped.
  function PrivsWithout(s: Slots<Priv>, c: Ref, p: Ref): (r: Slots<Priv>)
    ensures |r.cells| == |s.cells|
  {
    s.(cells := seq(|s.cells|, i requires 0 <= i < |s.cells| =>
      var e := s.cells[i];
      if e.Some? && e.value.holder == Unregistered(p) && e.value.ch == c then None else e))
  }

  // remove_player
  function RemovePlayer(st: State, p: Ref): State
    requires p in st.pl
  {
    var r, players := st.pl[p], Removed(st.players, p);
    State(players, Inserted(st.leaving, p), st.chans,
      map q | q in st.pl ::
        if q == p then r.(inChan := None, muted := r.muted.(cells := Nones(|r.muted.cells|)))
        else if Holds(players, q) then st.pl[q].(muted := Removed(st.pl[q].muted, p))
        else st.pl[q],
      map c | c in st.ch ::
        st.ch[c].(
          players := if r.inChan == Some(c) then Removed(st.ch[c].players, p) else st.ch[c].players,
          privs := if Holds(st.chans, c) && (st.ch[c].isUnregistered || !r.registered)
              then PrivsWithout(st.ch[c].privs, c, p) else st.ch[c].privs))
  }

  // destroy_player, from the sender thread
  function Destroy(st: State, p: Ref): State {
    st.(leaving := Removed(st.leaving, p), pl := st.pl - {p})
  }

  // c_req_mute_player, once the target is found
  function Mute(st: State, p: Ref, q: Ref, on: bool): State
    requires p in st.pl
  {
    var muted := st.pl[p].muted;
    if p == q || Holds(muted, q) == on then st
    else st.(pl := st.pl[p := st.pl[p].(muted := if on then Inserted(muted, q) else Removed(muted, q))])
  }

  // destroy_channel_by_id
  function DeleteChannel(st: State, c: Ref): State {
    st.(chans := Removed(st.chans, c), ch := st.ch - {c})
  }

  // ---- Privileges ----

  // Privileges are kept by the top channel.
  function Top(st: State, c: Ref): Ref
    requires c in st.ch
  {
    if st.ch[c].parent.Some? then st.ch[c].parent.value else c
  }

  predicate Matches(e: Priv, p: Ref, r: Player) {
    e.holder == Registered(r.reg) || e.holder == Unregistered(p)
  }

  function FirstMatch(cells: seq<Option<Priv>>, p: Ref, r: Player): (i: nat)
    ensures i <= |cells|
    ensures i < |cells| ==> cells[i].Some? && Matches(cells[i].value, p, r)
    ensures forall k :: 0 <= k < i && cells[k].Some? ==> !Matches(cells[k].value, p, r)
  {
    if cells == [] || (cells[0].Some? && Matches(cells[0].value, p, r)) then 0 else 1 + FirstMatch(cells[1..], p, r)
  }

  function NewPriv(p: Ref, r: Player, top: Ref): Priv {
    Priv(if r.registered then Registered(r.reg) else Unregistered(p), top, {})
  }

  // get_player_channel_privilege: the first match, or else a new entry.
  function FindOrCreate(s: Slots<Priv>, p: Ref, r: Player, top: Ref): Slots<Priv> {
    if FirstMatch(s.cells, p, r) < |s.cells| then s else Inserted(s, NewPriv(p, r, top))
  }

  // player_set_channel_privilege and player_clr_channel_privilege
  function SetFlags(s: Slots<Priv>, p: Ref, r: Player, top: Ref, bits: set<nat>, on: bool): Slots<Priv> {
    var t := FindOrCreate(s, p, r, top);
    var i := FirstMatch(t.cells, p, r);
    if i < |t.cells| then
      var e := t.cells[i].value;
      t.(cells := t.cells[i := Some(e.(flags := if on then e.flags + bits else e.flags - bits))])
    else t
  }

  function SetPrivilege(st: State, p: Ref, c: Ref, bits: set<nat>, on: bool): State
    requires p in st.pl && c in st.ch && Top(st, c) in st.ch
  {
    var top := Top(st, c);
    st.(ch := st.ch[top := st.ch[top].(privs := SetFlags(st.ch[top].privs, p, st.pl[p], top, bits, on))])
  }

  // player_get_channel_privileges: the last match, or nothing.
  function ReadFlags(cells: seq<Option<Priv>>, p: Ref, r: Player): set<nat> {
    if cells == [] then {}
    else
      var last := cells[|cells| - 1];
      if last.Some? && Matches(last.value, p, r) then last.value.flags else ReadFlags(cells[..|cells| - 1], p, r)
  }

  function GetPrivileges(st: State, p: Ref, c: Ref): set<nat>
    requires p in st.pl && c in st.ch && Top(st, c) in st.ch
  {
    ReadFlags(st.ch[Top(st, c)].privs.cells, p, st.pl[p])
  }
}
