/** The table of recent packets and the traffic of the last second and minute: server_stat.c. */
module ServerStat {

  const SECOND: int := 1_000_000
  const MINUTE: int := 60
  const WORD: nat := 0x1_0000_0000
  const LONG: nat := 0x1_0000_0000_0000_0000
  const PKT_MAX: nat := 10000

  // A slot of the table, or a packet: its size, when it was counted, and 0 for received, 1 for sent.
  datatype Pkt = Pkt(size: nat, at: int, io: nat)

  // timersub leaves the microseconds between 0 and a second, so the seconds are rounded down.
  function Age(now: int, at: int): int {
    (now - at) / SECOND
  }

  // ---- The steps on the table ----

  predicate Reusable(e: Pkt, now: int) {
    e.size == 0 || Age(now, e.at) > MINUTE
  }

  function FirstReusable(table: seq<Pkt>, now: int): (i: nat)
    ensures i <= |table|
    ensures i < |table| ==> Reusable(table[i], now)
    ensures forall k :: 0 <= k < i ==> !Reusable(table[k], now)
  {
    if table == [] || Reusable(table[0], now) then 0 else 1 + FirstReusable(table[1..], now)
  }

  // sstat_add_packet, unless every slot is taken.
  function Added(table: seq<Pkt>, size: nat, io: nat, now: int, stamp: int): (r: seq<Pkt>)
    ensures |r| == |table|
  {
    var i := FirstReusable(table, now);
    if i < |table| then table[i := Pkt(size, stamp, io)] else table
  }

  function ClearedSlot(e: Pkt, now: int): Pkt {
    if Age(now, e.at) < MINUTE then e else e.(size := 0)
  }

  // What compute_timed_stats leaves of the table.
  function Cleared(table: seq<Pkt>, now: int): (r: seq<Pkt>)
    ensures |r| == |table| && forall i :: 0 <= i < |table| ==> r[i] == ClearedSlot(table[i], now)
  {
    seq(|table|, i requires 0 <= i < |table| => ClearedSlot(table[i], now))
  }

  // ---- The same in microseconds ----

  // A slot is free exactly when it is empty or its packet was counted 61 seconds ago or more,
  // and is cleared exactly when that was a minute ago or more.
  lemma ReusableExactly(e: Pkt, now: int)
    ensures Reusable(e, now) <==> e.size == 0 || now - e.at >= 61_000_000
    ensures ClearedSlot(e, now) == if now - e.at >= 60_000_000 then Pkt(0, e.at, e.io) else e
  {
  }

  // The bytes of one direction among the packets counted less than `span` microseconds before t.
  function BytesWithin(s: seq<Pkt>, io: nat, t: int, span: int): nat {
    if s == [] then 0
    else (if s[0].io == io && t - s[0].at < span then s[0].size else 0) + BytesWithin(s[1..], io, t, span)
  }

  lemma {:induction false} TrafficIsBytesWithin(s: seq<Pkt>, io: nat, t: int, seconds: int)
    ensures Sum(s, Traffic(t, seconds, io)) == BytesWithin(s, io, t, seconds * 1_000_000)
  {
    if s == [] {
    } else {
      TrafficIsBytesWithin(s[1..], io, t, seconds);
      AgeExactly(t, s[0].at, seconds);
    }
  }

  lemma AgeExactly(now: int, at: int, seconds: int)
    ensures Age(now, at) < seconds <==> now - at < seconds * 1_000_000
  {
  }

  // How many non-empty packets were counted less than `span` microseconds before t.
  function PacketsWithin(s: seq<Pkt>, t: int, span: int): nat {
    if s == [] then 0
    else (if s[0].size > 0 && t - s[0].at < span then 1 else 0) + PacketsWithin(s[1..], t, span)
  }

  lemma {:induction false} PacketsAreWithin(s: seq<Pkt>, t: int, seconds: int)
    ensures Sum(s, Packets(t, seconds)) == PacketsWithin(s, t, seconds * 1_000_000)
  {
    if s == [] {
    } else {
      PacketsAreWithin(s[1..], t, seconds);
      AgeExactly(t, s[0].at, seconds);
    }
  }

  // ---- Measures of a series of packets ----

  // The bytes of one direction, or the number of packets with any bytes, over the last
  // `seconds` seconds before t.
  datatype Measure = Traffic(t: int, seconds: int, io: nat) | Packets(t: int, seconds: int)

  function Of(m: Measure, e: Pkt): nat {
    if Age(m.t, e.at) >= m.seconds then 0
    else match m
      case Traffic(_, _, io) => if e.io == io then e.size else 0
      case Packets(_, _) => if e.size > 0 then 1 else 0
  }

  function Sum(s: seq<Pkt>, m: Measure): nat {
    if s == [] then 0 else Of(m, s[0]) + Sum(s[1..], m)
  }

  lemma {:induction false} SumSplit(a: seq<Pkt>, b: seq<Pkt>, m: Measure)
    ensures Sum(a + b, m) == Sum(a, m) + Sum(b, m)
  {
    if a == [] {
      assert a + b == b;
    } else {
      assert (a + b)[1..] == a[1..] + b;
      SumSplit(a[1..], b, m);
    }
  }

  lemma SumOne(e: Pkt, m: Measure)
    ensures Sum([e], m) == Of(m, e)
  {
  }

  lemma SumSet(s: seq<Pkt>, i: nat, e: Pkt, m: Measure)
    requires i < |s|
    ensures Sum(s[i := e], m) + Of(m, s[i]) == Sum(s, m) + Of(m, e)
  {
    hide Of;
    assert s == s[..i] + ([s[i]] + s[i + 1..]) && s[i := e] == s[..i] + ([e] + s[i + 1..]);
    SumSplit(s[..i], [s[i]] + s[i + 1..], m);
    SumSplit([s[i]], s[i + 1..], m);
    SumSplit(s[..i], [e] + s[i + 1..], m);
    SumSplit([e], s[i + 1..], m);
    SumOne(s[i], m);
    SumOne(e, m);
  }

  lemma {:induction false} SumCleared(s: seq<Pkt>, now: int, m: Measure)
    requires m.t >= now
    ensures Sum(Cleared(s, now), m) <= Sum(s, m)
    ensures m.seconds <= MINUTE ==> Sum(Cleared(s, now), m) == Sum(s, m)
  {
    if s == [] {
    } else {
      SumCleared(s[1..], now, m);
      assert Cleared(s, now)[1..] == Cleared(s[1..], now);
      OlderLater(s[0].at, now, m.t);
    }
  }

  // Time only makes packets older.
  lemma OlderLater(at: int, now: int, t: int)
    requires now <= t
    ensures Age(now, at) <= Age(t, at)
  {
  }

  // ---- Runs ----

  // history is every packet ever counted, clock the last reading of the clock.
  datatype World = World(table: seq<Pkt>, history: seq<Pkt>, clock: int)

  datatype Event = Add(size: nat, io: nat, now: int, stamp: int) | Compute(now: int)

  // The clock does not go back, and an insertion finds a reusable slot.
  predicate Enabled(w: World, e: Event) {
    match e
    case Add(_, _, now, stamp) => w.clock <= now <= stamp && FirstReusable(w.table, now) < |w.table|
    case Compute(now) => w.clock <= now
  }

  function Next(w: World, e: Event): World {
    match e
    case Add(size, io, now, stamp) =>
      World(Added(w.table, size, io, now, stamp), w.history + [Pkt(size, stamp, io)], stamp)
    case Compute(now) => World(Cleared(w.table, now), w.history, now)
  }

  predicate Legal(w: World, es: seq<Event>)
    decreases |es|
  {
    es == [] || (Enabled(w, es[0]) && Legal(Next(w, es[0]), es[1..]))
  }

  function Run(w: World, es: seq<Event>): World
    decreases |es|
  {
    if es == [] then w else Run(Next(w, es[0]), es[1..])
  }

  // new_sstat
  function Start(clock: int): World {
    World(seq(PKT_MAX, _ => Pkt(0, 0, 0)), [], clock)
  }

  // From now on and for every window of at most a minute, the table gives the same traffic as
  // the whole history; and it never holds more recent packets than there were.
  ghost predicate Agrees(w: World) {
    forall m: Measure :: m.t >= w.clock ==>
      && (m.seconds <= MINUTE ==> Sum(w.table, m) == Sum(w.history, m))
      && (m.seconds == MINUTE + 1 ==> Sum(w.table, m) <= Sum(w.history, m))
  }

  lemma {:induction false} FullTable(s: seq<Pkt>, now: int)
    requires forall i :: 0 <= i < |s| ==> !Reusable(s[i], now)
    ensures Sum(s, Packets(now, MINUTE + 1)) == |s|
  {
    if s == [] {
    } else {
      FullTable(s[1..], now);
    }
  }

  // A slot is found while fewer packets than there are slots were counted in the last 61 seconds.
  lemma SlotIsFound(w: World, now: int)
    requires Agrees(w) && now >= w.clock && Sum(w.history, Packets(now, MINUTE + 1)) < |w.table|
    ensures FirstReusable(w.table, now) < |w.table|
  {
    assert Sum(w.table, Packets(now, MINUTE + 1)) <= Sum(w.history, Packets(now, MINUTE + 1));
    if FirstReusable(w.table, now) == |w.table| {
      FullTable(w.table, now);
    }
  }

  // What a reused slot held counts no more, now or later.
  lemma ReusedCountsNothing(e: Pkt, now: int, m: Measure)
    requires Reusable(e, now) && m.t >= now && m.seconds <= MINUTE + 1
    ensures Of(m, e) == 0
  {
    OlderLater(e.at, now, m.t);
  }

  lemma AddKeepsAgreement(w: World, e: Event)
    requires Agrees(w) && e.Add? && Enabled(w, e)
    ensures Agrees(Next(w, e))
  {
    hide Of, Reusable;
    var w' := Next(w, e);
    var p := Pkt(e.size, e.stamp, e.io);
    var i := FirstReusable(w.table, e.now);
    forall m: Measure | m.t >= w'.clock && m.seconds <= MINUTE + 1
      ensures m.seconds <= MINUTE ==> Sum(w'.table, m) == Sum(w'.history, m)
      ensures m.seconds == MINUTE + 1 ==> Sum(w'.table, m) <= Sum(w'.history, m)
    {
      SumSet(w.table, i, p, m);
      ReusedCountsNothing(w.table[i], e.now, m);
      SumSplit(w.history, [p], m);
      SumOne(p, m);
    }
  }

  lemma ComputeKeepsAgreement(w: World, now: int)
    requires Agrees(w) && w.clock <= now
    ensures Agrees(Next(w, Compute(now)))
  {
    forall m: Measure | m.t >= now ensures Sum(Cleared(w.table, now), m) <= Sum(w.table, m) &&
        (m.seconds <= MINUTE ==> Sum(Cleared(w.table, now), m) == Sum(w.table, m))
    {
      SumCleared(w.table, now, m);
    }
  }

  lemma {:induction false} RunKeepsAgreement(w: World, es: seq<Event>)
    requires Agrees(w) && Legal(w, es)
    ensures Agrees(Run(w, es)) && |Run(w, es).table| == |w.table| && Run(w, es).clock >= w.clock
    decreases |es|
  {
    if es == [] {
    } else {
      hide Agrees;
      match es[0] {
        case Add(_, _, _, _) => AddKeepsAgreement(w, es[0]);
        case Compute(now) => ComputeKeepsAgreement(w, now);
      }
      RunKeepsAgreement(Next(w, es[0]), es[1..]);
    }
  }

  lemma {:induction false} EmptyTable(n: nat, m: Measure)
    ensures Sum(seq(n, _ => Pkt(0, 0, 0)), m) == 0
  {
    if n == 0 {
    } else {
      var s := seq(n, _ => Pkt(0, 0, 0));
      assert s[1..] == seq(n - 1, _ => Pkt(0, 0, 0));
      EmptyTable(n - 1, m);
    }
  }

  // Over every run with a clock that does not go back in which each insertion finds a slot: at
  // any later moment the table gives exactly the bytes of each direction over the last second
  // and the last minute of the whole history.
  lemma StatisticsAreExact(clock: int, es: seq<Event>, now: int, io: nat)
    requires Legal(Start(clock), es) && now >= Run(Start(clock), es).clock
    ensures var w := Run(Start(clock), es);
      && Sum(w.table, Traffic(now, 1, io)) == BytesWithin(w.history, io, now, 1_000_000)
      && Sum(w.table, Traffic(now, 60, io)) == BytesWithin(w.history, io, now, 60_000_000)
      && BytesWithin(w.table, io, now, 1_000_000) == BytesWithin(w.history, io, now, 1_000_000)
      && BytesWithin(w.table, io, now, 60_000_000) == BytesWithin(w.history, io, now, 60_000_000)
  {
    StartAgrees(clock);
    RunKeepsAgreement(Start(clock), es);
    var w := Run(Start(clock), es);
    hide Sum, BytesWithin, Of;
    TrafficIsBytesWithin(w.table, io, now, 1);
    TrafficIsBytesWithin(w.table, io, now, 60);
    TrafficIsBytesWithin(w.history, io, now, 1);
    TrafficIsBytesWithin(w.history, io, now, 60);
  }

  lemma StartAgrees(clock: int)
    ensures Agrees(Start(clock))
  {
    forall m: Measure ensures Sum(Start(clock).table, m) == 0 {
      EmptyTable(PKT_MAX, m);
    }
  }

  // The clock does not go back, and before each insertion fewer packets than the table has
  // slots were counted in the last 61 seconds.
  predicate Slow(w: World, es: seq<Event>)
    decreases |es|
  {
    || es == []
    || (&& Slow(Next(w, es[0]), es[1..])
        && match es[0]
           case Add(_, _, now, stamp) =>
             w.clock <= now <= stamp && PacketsWithin(w.history, now, 61_000_000) < |w.table|
           case Compute(now) => w.clock <= now)
  }

  lemma {:induction false} SlowRunsAreLegal(w: World, es: seq<Event>)
    requires Agrees(w) && Slow(w, es)
    ensures Legal(w, es)
    decreases |es|
  {
    if es == [] {
    } else {
      hide Agrees;
      match es[0] {
        case Add(_, _, now, _) =>
          PacketsAreWithin(w.history, now, 61);
          SlotIsFound(w, now);
          AddKeepsAgreement(w, es[0]);
        case Compute(now) => ComputeKeepsAgreement(w, now);
      }
      SlowRunsAreLegal(Next(w, es[0]), es[1..]);
    }
  }

  // A traffic of at most 9999 packets in any 61 seconds never lacks a slot.
  lemma SlowTrafficFits(clock: int, es: seq<Event>)
    requires Slow(Start(clock), es)
    ensures Legal(Start(clock), es)
  {
    StartAgrees(clock);
    SlowRunsAreLegal(Start(clock), es);
  }

  // The rate is not necessary: a computation frees the slots of packets that are a minute old,
  // a second before an insertion would take them over.
  lemma ClearedSlotsAreReusable(table: seq<Pkt>, now: int, i: nat)
    requires i < |table| && now - table[i].at >= 60_000_000
    ensures FirstReusable(Cleared(table, now), now) <= i
  {
    var c := Cleared(table, now);
    assert Reusable(c[i], now);
  }

  // ---- struct server_stat ----

  class Stat {
    const pktSizes: array<nat>
    const pktTimestamps: array<int>
    const pktIo: array<nat>
    var pktSent: nat
    var pktRec: nat
    var sizeSent: nat
    var sizeRec: nat

    ghost predicate Valid()
      reads pktIo
    {
      && pktSizes.Length == pktTimestamps.Length == pktIo.Length && pktSizes != pktIo
      && forall i :: 0 <= i < pktIo.Length ==> pktIo[i] <= 1
    }

    ghost function Table(): (s: seq<Pkt>)
      requires Valid()
      reads pktSizes, pktTimestamps, pktIo
      ensures |s| == pktSizes.Length
      ensures forall i :: 0 <= i < |s| ==> s[i] == Pkt(pktSizes[i], pktTimestamps[i], pktIo[i])
    {
      seq(pktSizes.Length, i requires 0 <= i < pktSizes.Length reads pktSizes, pktTimestamps, pktIo =>
        Pkt(pktSizes[i], pktTimestamps[i], pktIo[i]))
    }

    // new_sstat
    constructor ()
      ensures Valid() && Table() == Start(0).table && |Table()| == 10000
      ensures pktSent == pktRec == sizeSent == sizeRec == 0
    {
      pktSizes := new nat[PKT_MAX](_ => 0);
      pktTimestamps := new int[PKT_MAX](_ => 0);
      pktIo := new nat[PKT_MAX](_ => 0);
      pktSent, pktRec, sizeSent, sizeRec := 0, 0, 0, 0;
    }

    // sstat_add_packet: now is read before the search, stamp when the slot is filled. The
    // answer says whether there was a slot.
    method AddPacket(size: nat, io: nat, now: int, stamp: int) returns (done: bool)
      requires Valid() && io <= 1
      modifies this`pktSent, this`pktRec, this`sizeSent, this`sizeRec, pktSizes, pktTimestamps, pktIo
      ensures Valid() && Table() == Added(old(Table()), size, io, now, stamp)
      ensures done <==> exists i :: 0 <= i < pktSizes.Length && FreeAt(old(Table()), i, now)
      ensures io == 1 ==> pktSent == (old(pktSent) + 1) % 0x1_0000_0000_0000_0000
      ensures io == 1 ==> sizeSent == (old(sizeSent) + size) % 0x1_0000_0000_0000_0000
      ensures io == 0 ==> pktRec == (old(pktRec) + 1) % 0x1_0000_0000_0000_0000
      ensures io == 0 ==> sizeRec == (old(sizeRec) + size) % 0x1_0000_0000_0000_0000
      ensures io == 1 ==> pktRec == old(pktRec) && sizeRec == old(sizeRec)
      ensures io == 0 ==> pktSent == old(pktSent) && sizeSent == old(sizeSent)
    {
      CountTotals(size, io);
      ghost var table := Table();
      FoundExactly(table, now);
      var i := FindSlot(now);
      hide Reusable, FreeAt;
      if i < pktSizes.Length {
        assert FreeAt(table, i, now);
        pktSizes[i] := size;
        pktTimestamps[i] := stamp;
        pktIo[i] := io;
        assert Table() == table[i := Pkt(size, stamp, io)];
        return true;
      }
      return false;
    }

    method CountTotals(size: nat, io: nat)
      requires io <= 1
      modifies this`pktSent, this`pktRec, this`sizeSent, this`sizeRec
      ensures io == 1 ==> pktSent == (old(pktSent) + 1) % LONG && sizeSent == (old(sizeSent) + size) % LONG
      ensures io == 0 ==> pktRec == (old(pktRec) + 1) % LONG && sizeRec == (old(sizeRec) + size) % LONG
      ensures io == 1 ==> pktRec == old(pktRec) && sizeRec == old(sizeRec)
      ensures io == 0 ==> pktSent == old(pktSent) && sizeSent == old(sizeSent)
    {
      if io == 1 {
        pktSent, sizeSent := (pktSent + 1) % LONG, (sizeSent + size) % LONG;
      } else {
        pktRec, sizeRec := (pktRec + 1) % LONG, (sizeRec + size) % LONG;
      }
    }

    // The loop that looks for a slot to take over.
    method FindSlot(now: int) returns (i: nat)
      requires Valid()
      ensures i == FirstReusable(Table(), now)
    {
      ghost var table := Table();
      i := 0;
      while i < pktSizes.Length
        invariant i <= pktSizes.Length && forall k :: 0 <= k < i ==> !Reusable(table[k], now)
      {
        if pktSizes[i] == 0 || Age(now, pktTimestamps[i]) > MINUTE {
          assert Reusable(table[i], now);
          return;
        }
        i := i + 1;
      }
    }

    // compute_timed_stats: received and sent bytes of the last second, then of the last minute,
    // added to what the result held, in 32 bits.
    method ComputeTimedStats(now: int, stats: array<nat>)
      requires Valid() && stats.Length == 4 && stats != pktSizes && stats != pktIo
      requires forall k :: 0 <= k < 4 ==> stats[k] < WORD
      modifies pktSizes, stats
      ensures Valid() && Table() == Cleared(old(Table()), now)
      ensures stats[0] == (old(stats[0]) + BytesWithin(old(Table()), 0, now, 1_000_000)) % 0x1_0000_0000
      ensures stats[1] == (old(stats[1]) + BytesWithin(old(Table()), 1, now, 1_000_000)) % 0x1_0000_0000
      ensures stats[2] == (old(stats[2]) + BytesWithin(old(Table()), 0, now, 60_000_000)) % 0x1_0000_0000
      ensures stats[3] == (old(stats[3]) + BytesWithin(old(Table()), 1, now, 60_000_000)) % 0x1_0000_0000
    {
      CountedWithin(Table(), now);
      AddUp(now, stats);
    }

    // Its loop over the slots.
    method AddUp(now: int, stats: array<nat>)
      requires Valid() && stats.Length == 4 && stats != pktSizes && stats != pktIo
      requires forall k :: 0 <= k < 4 ==> stats[k] < WORD
      modifies pktSizes, stats
      ensures Valid() && Table() == Cleared(old(Table()), now)
      ensures Counted(stats[..], old(stats[..]), old(Table()), now)
    {
      hide Sum, Of, Age;
      ghost var table, was := Table(), stats[..];
      CountNone(was, now);
      assert table[..0] == [];
      for i := 0 to pktSizes.Length
        invariant Valid()
        invariant forall k :: 0 <= k < i ==> Table()[k] == ClearedSlot(table[k], now)
        invariant forall k :: i <= k < |table| ==> Table()[k] == table[k]
        invariant Counted(stats[..], was, table[..i], now)
      {
        CountOne(stats[..], was, table[..i], table[i], now);
        assert table[..i + 1] == table[..i] + [table[i]];
        var sec := Age(now, pktTimestamps[i]);
        if sec < MINUTE {
          stats[2 + pktIo[i]] := (stats[2 + pktIo[i]] + pktSizes[i]) % WORD;
          if sec < 1 {
            stats[pktIo[i]] := (stats[pktIo[i]] + pktSizes[i]) % WORD;
          }
        } else {
          pktSizes[i] := 0;
        }
      }
      assert table[..pktSizes.Length] == table;
      assert Table() == Cleared(table, now);
    }
  }

  // A slot that may be taken over.
  predicate FreeAt(table: seq<Pkt>, i: nat, now: int)
    requires i < |table|
  {
    table[i].size == 0 || now - table[i].at >= 61_000_000
  }

  // The search stops at the first of them.
  lemma FoundExactly(table: seq<Pkt>, now: int)
    ensures var i := FirstReusable(table, now);
      && (i < |table| ==> FreeAt(table, i, now))
      && (forall k :: 0 <= k < i ==> !FreeAt(table, k, now))
  {
    forall e: Pkt ensures Reusable(e, now) <==> e.size == 0 || now - e.at >= 61_000_000 {
      ReusableExactly(e, now);
    }
    hide Age;
    var i := FirstReusable(table, now);
    assert forall k :: 0 <= k < i ==> !Reusable(table[k], now);
  }

  lemma CountedWithin(table: seq<Pkt>, now: int)
    ensures Sum(table, Traffic(now, 1, 0)) == BytesWithin(table, 0, now, 1_000_000)
    ensures Sum(table, Traffic(now, 1, 1)) == BytesWithin(table, 1, now, 1_000_000)
    ensures Sum(table, Traffic(now, 60, 0)) == BytesWithin(table, 0, now, 60_000_000)
    ensures Sum(table, Traffic(now, 60, 1)) == BytesWithin(table, 1, now, 60_000_000)
  {
    hide Sum, BytesWithin, Of;
    TrafficIsBytesWithin(table, 0, now, 1);
    TrafficIsBytesWithin(table, 1, now, 1);
    TrafficIsBytesWithin(table, 0, now, 60);
    TrafficIsBytesWithin(table, 1, now, 60);
  }

  // The four counters after a part of the table.
  ghost predicate Counted(stats: seq<nat>, was: seq<nat>, part: seq<Pkt>, now: int) {
    && |stats| == |was| == 4
    && stats[0] == (was[0] + Sum(part, Traffic(now, 1, 0))) % WORD
    && stats[1] == (was[1] + Sum(part, Traffic(now, 1, 1))) % WORD
    && stats[2] == (was[2] + Sum(part, Traffic(now, MINUTE, 0))) % WORD
    && stats[3] == (was[3] + Sum(part, Traffic(now, MINUTE, 1))) % WORD
  }

  lemma CountNone(was: seq<nat>, now: int)
    requires |was| == 4 && forall k :: 0 <= k < 4 ==> was[k] < WORD
    ensures Counted(was, was, [], now)
  {
  }

  lemma CountOne(stats: seq<nat>, was: seq<nat>, part: seq<Pkt>, e: Pkt, now: int)
    requires Counted(stats, was, part, now) && e.io <= 1
    ensures var sec := Age(now, e.at);
      var s2 := if sec < MINUTE then stats[2 + e.io := (stats[2 + e.io] + e.size) % WORD] else stats;
      var s1 := if sec < 1 then s2[e.io := (s2[e.io] + e.size) % WORD] else s2;
      Counted(s1, was, part + [e], now)
  {
    var s := Age(now, e.at);
    MeasureOne(part, e, Traffic(now, 1, 0), was[0], s < 1 && e.io == 0);
    MeasureOne(part, e, Traffic(now, 1, 1), was[1], s < 1 && e.io == 1);
    MeasureOne(part, e, Traffic(now, MINUTE, 0), was[2], s < MINUTE && e.io == 0);
    MeasureOne(part, e, Traffic(now, MINUTE, 1), was[3], s < MINUTE && e.io == 1);
    hide Sum;
  }

  lemma MeasureOne(part: seq<Pkt>, e: Pkt, m: Measure, was: nat, counts: bool)
    requires m.Traffic? && counts == (Age(m.t, e.at) < m.seconds && e.io == m.io)
    ensures (was + Sum(part + [e], m)) % WORD
         == if counts then ((was + Sum(part, m)) % WORD + e.size) % WORD else (was + Sum(part, m)) % WORD
  {
    SumSplit(part, [e], m);
    SumOne(e, m);
    WordAdd(was + Sum(part, m), e.size);
  }

  lemma WordAdd(a: nat, b: nat)
    ensures (a % WORD + b) % WORD == (a + b) % WORD
  {
  }
}
