/** The growable array of slots of array.c. */
module SlotArray {
  import opened Wrappers

  // A snapshot of the array: its slots, and the number of slots it may grow to.
  datatype Slots<T> = Slots(cells: seq<Option<T>>, maxSlots: nat)

  const SIZE_MAX: nat := 0xFFFF_FFFF_FFFF_FFFF

  function Count<T>(cells: seq<Option<T>>): (n: nat)
    ensures n <= |cells|
  {
    if cells == [] then 0 else (if cells[0].Some? then 1 else 0) + Count(cells[1..])
  }

  // The elements in slot order.
  function Elems<T>(cells: seq<Option<T>>): (s: seq<T>)
    ensures |s| == Count(cells)
  {
    if cells == [] then [] else (if cells[0].Some? then [cells[0].value] else []) + Elems(cells[1..])
  }

  function FirstFree<T>(cells: seq<Option<T>>): (i: nat)
    ensures i <= |cells|
  {
    if cells == [] || cells[0].None? then 0 else 1 + FirstFree(cells[1..])
  }

  function Nones<T>(n: nat): (s: seq<Option<T>>)
    ensures |s| == n && forall i :: 0 <= i < n ==> s[i] == None
  {
    seq(n, _ => None)
  }

  function GrownSize(total: nat, max: nat): nat {
    if total < max then (if 2 * total < max then 2 * total else max) else total
  }

  function Grown<T>(s: Slots<T>): Slots<T> {
    s.(cells := s.cells + Nones(if GrownSize(|s.cells|, s.maxSlots) > |s.cells|
        then GrownSize(|s.cells|, s.maxSlots) - |s.cells| else 0))
  }

  // Room for one more element, possibly after growing.
  predicate HasRoom<T>(s: Slots<T>) {
    Count(s.cells) < |s.cells| || 0 < |s.cells| < s.maxSlots
  }

  // ar_insert: the slots afterwards.
  function Inserted<T>(s: Slots<T>, x: T): Slots<T> {
    if Count(s.cells) == |s.cells| && |s.cells| >= s.maxSlots then s
    else
      var s' := if Count(s.cells) == |s.cells| then Grown(s) else s;
      var i := FirstFree(s'.cells);
      if i < |s'.cells| then s'.(cells := s'.cells[i := Some(x)]) else s'
  }

  // ar_remove: every slot holding the element is cleared.
  function Removed<T(==)>(s: Slots<T>, x: T): (r: Slots<T>)
    ensures |r.cells| == |s.cells| && r.maxSlots == s.maxSlots
  {
    s.(cells := seq(|s.cells|, i requires 0 <= i < |s.cells| => if s.cells[i] == Some(x) then None else s.cells[i]))
  }

  predicate Holds<T(==)>(s: Slots<T>, x: T) {
    Some(x) in s.cells
  }

  // No element occupies two slots.
  ghost predicate NoDup<T>(s: Slots<T>) {
    forall i, j :: 0 <= i < j < |s.cells| && s.cells[i].Some? ==> s.cells[i] != s.cells[j]
  }

  // ---- Counting ----

  lemma {:induction false} CountSplit<T>(a: seq<Option<T>>, b: seq<Option<T>>)
    ensures Count(a + b) == Count(a) + Count(b)
    ensures Elems(a + b) == Elems(a) + Elems(b)
  {
    if a == [] {
      assert a + b == b;
    } else {
      assert (a + b)[1..] == a[1..] + b;
      CountSplit(a[1..], b);
    }
  }

  lemma {:induction false} FirstFreeSplits<T>(cells: seq<Option<T>>)
    ensures var i := FirstFree(cells);
      && (forall k :: 0 <= k < i ==> cells[k].Some?)
      && (i < |cells| ==> cells[i] == None)
      && (Count(cells) == |cells| <==> i == |cells|)
  {
    if cells == [] {
    } else {
      FirstFreeSplits(cells[1..]);
      var i := FirstFree(cells);
      forall k | 0 <= k < i ensures cells[k].Some? {
        if k > 0 {
          assert cells[k] == cells[1..][k - 1];
        }
      }
    }
  }

  lemma {:induction false} NonesAreEmpty<T>(n: nat)
    ensures Count<T>(Nones(n)) == 0 && Elems<T>(Nones(n)) == []
  {
    if n == 0 {
    } else {
      assert Nones<T>(n)[1..] == Nones(n - 1);
      NonesAreEmpty<T>(n - 1);
    }
  }

  lemma {:induction false} ElemsAreMembers<T>(cells: seq<Option<T>>, x: T)
    ensures x in Elems(cells) <==> Some(x) in cells
  {
    if cells == [] {
    } else {
      ElemsAreMembers(cells[1..], x);
      assert cells == [cells[0]] + cells[1..];
    }
  }

  lemma SetCell<T>(cells: seq<Option<T>>, i: nat, c: Option<T>)
    requires i < |cells|
    ensures Elems(cells[i := c]) == Elems(cells[..i]) + Elems([c]) + Elems(cells[i + 1..])
    ensures Elems(cells) == Elems(cells[..i]) + Elems([cells[i]]) + Elems(cells[i + 1..])
  {
    assert cells[i := c] == cells[..i] + ([c] + cells[i + 1..]);
    assert cells == cells[..i] + ([cells[i]] + cells[i + 1..]);
    CountSplit(cells[..i], [c] + cells[i + 1..]);
    CountSplit([c], cells[i + 1..]);
    CountSplit(cells[..i], [cells[i]] + cells[i + 1..]);
    CountSplit([cells[i]], cells[i + 1..]);
  }

  lemma NoElems<T>(cells: seq<Option<T>>)
    ensures Elems(cells[|cells|..]) == [] && Elems(cells[0..]) == Elems(cells)
  {
    assert cells[0..] == cells;
  }

  // Walking the slots in step with the elements.
  lemma NextElem<T>(cells: seq<Option<T>>, i: nat, live: seq<T>, seen: nat)
    requires i < |cells| && seen <= |live| && live[seen..] == Elems(cells[i..])
    ensures cells[i].Some? ==>
        seen < |live| && live[seen] == cells[i].value && live[seen + 1..] == Elems(cells[i + 1..])
    ensures cells[i].None? ==> live[seen..] == Elems(cells[i + 1..])
  {
    assert cells[i..][1..] == cells[i + 1..];
    if cells[i].Some? {
      assert live[seen..][0] == cells[i].value && live[seen + 1..] == live[seen..][1..];
    }
  }

  // ---- What insertion and removal do ----

  lemma GrownKeeps<T>(s: Slots<T>)
    ensures Elems(Grown(s).cells) == Elems(s.cells) && Count(Grown(s).cells) == Count(s.cells)
    ensures s.cells <= Grown(s).cells
    ensures 0 < |s.cells| < s.maxSlots ==> |s.cells| < |Grown(s).cells| <= s.maxSlots
  {
    var n := |Grown(s).cells| - |s.cells|;
    NonesAreEmpty<T>(n);
    CountSplit(s.cells, Nones(n));
  }

  // A full array that may grow doubles, but not beyond its limit.
  lemma GrowthDoubles<T>(s: Slots<T>)
    requires 0 < |s.cells| < s.maxSlots
    ensures |Grown(s).cells| == (if 2 * |s.cells| <= s.maxSlots then 2 * |s.cells| else s.maxSlots)
    ensures forall i :: 0 <= i < |Grown(s).cells| ==>
      Grown(s).cells[i] == if i < |s.cells| then s.cells[i] else None
  {
  }

  // What is counted is the slots that are taken.
  lemma {:induction false} CountIsTaken<T>(cells: seq<Option<T>>)
    ensures Count(cells) == |Taken(cells)|
  {
    if cells == [] {
      assert Taken(cells) == {};
    } else {
      var front, last := cells[..|cells| - 1], cells[|cells| - 1];
      CountIsTaken(front);
      assert cells == front + [last];
      CountSplit(front, [last]);
      hide Count, Elems;
      assert Taken(cells) == Taken(front) + if last.Some? then {|front|} else {};
      assert Count([last]) == if last.Some? then 1 else 0 by {
        CountOne(last);
      }
    }
  }

  function Taken<T>(cells: seq<Option<T>>): set<nat> {
    set i: nat | i < |cells| && cells[i].Some?
  }

  lemma CountOne<T>(cell: Option<T>)
    ensures Count([cell]) == if cell.Some? then 1 else 0
  {
  }

  // The slot an insertion takes.
  function Target<T>(s: Slots<T>): nat {
    FirstFree((if Count(s.cells) == |s.cells| then Grown(s) else s).cells)
  }

  // The element sits in slot k, the first that was free; the others kept theirs.
  ghost predicate PlacedAt<T>(cells: seq<Option<T>>, r: seq<Option<T>>, x: T, k: nat) {
    && |cells| <= |r| && k < |r| && r[k] == Some(x) && (k < |cells| ==> cells[k] == None)
    && (forall j :: 0 <= j < |r| && j != k ==> r[j] == if j < |cells| then cells[j] else None)
    && (forall j :: 0 <= j < k ==> r[j].Some?)
  }

  // Insertion fails exactly when every slot is taken and the array may not grow (an array
  // that was created without slots cannot grow either); otherwise the element takes the first
  // free slot, and the others keep their slots.
  lemma InsertSpec<T>(s: Slots<T>, x: T)
    ensures Inserted(s, x).maxSlots == s.maxSlots
    ensures !HasRoom(s) ==> Inserted(s, x).cells == s.cells
    ensures HasRoom(s) ==> PlacedAt(s.cells, Inserted(s, x).cells, x, Target(s))
    ensures |Inserted(s, x).cells|
        == if Count(s.cells) == |s.cells| then GrownSize(|s.cells|, s.maxSlots) else |s.cells|
  {
    GrownKeeps(s);
    FirstFreeSplits(s.cells);
    FirstFreeSplits(Grown(s).cells);
  }

  lemma InsertCount<T>(s: Slots<T>, x: T)
    requires HasRoom(s)
    ensures Count(Inserted(s, x).cells) == Count(s.cells) + 1
    ensures multiset(Elems(Inserted(s, x).cells)) == multiset(Elems(s.cells)) + multiset{x}
  {
    GrownKeeps(s);
    InsertSpec(s, x);
    var s' := if Count(s.cells) == |s.cells| then Grown(s) else s;
    FirstFreeSplits(s'.cells);
    FillCell(s'.cells, FirstFree(s'.cells), x);
  }

  lemma FillCell<T>(cells: seq<Option<T>>, i: nat, x: T)
    requires i < |cells| && cells[i] == None
    ensures Count(cells[i := Some(x)]) == Count(cells) + 1
    ensures multiset(Elems(cells[i := Some(x)])) == multiset(Elems(cells)) + multiset{x}
  {
    SetCell(cells, i, Some(x));
    assert Elems<T>([None]) == [] && Elems([Some(x)]) == [x];
  }

  lemma InsertMembers<T>(s: Slots<T>, x: T)
    requires HasRoom(s)
    ensures forall y :: Some(y) in Inserted(s, x).cells <==> y == x || Some(y) in s.cells
    ensures NoDup(s) && Some(x) !in s.cells ==> NoDup(Inserted(s, x))
  {
    InsertSpec(s, x);
    PlacedMembers(s.cells, Inserted(s, x).cells, x, Target(s));
  }

  lemma PlacedMembers<T>(cells: seq<Option<T>>, r: seq<Option<T>>, x: T, k: nat)
    requires PlacedAt(cells, r, x, k)
    ensures forall y :: Some(y) in r <==> y == x || Some(y) in cells
  {
    forall y | Some(y) in cells ensures Some(y) in r {
      var j :| 0 <= j < |cells| && cells[j] == Some(y);
      assert r[j] == Some(y);
    }
  }

  function Without<T(==)>(s: seq<T>, x: T): seq<T> {
    if s == [] then [] else (if s[0] == x then [] else [s[0]]) + Without(s[1..], x)
  }

  // Removal takes out every occurrence and keeps the order of the rest.
  lemma {:induction false} RemoveElems<T>(s: Slots<T>, x: T)
    ensures Elems(Removed(s, x).cells) == Without(Elems(s.cells), x)
    decreases |s.cells|
  {
    if s.cells != [] {
      var t := s.(cells := s.cells[1..]);
      RemoveElems(t, x);
      assert Removed(s, x).cells[1..] == Removed(t, x).cells;
      var rest := Elems(Removed(t, x).cells);
      assert [] + rest == rest && [] + Elems(t.cells) == Elems(t.cells);
      if s.cells[0].Some? {
        assert Elems(s.cells)[1..] == Elems(t.cells);
        assert Removed(s, x).cells[0] == if s.cells[0].value == x then None else s.cells[0];
      }
    } else {
      assert Removed(s, x).cells == [];
    }
  }

  lemma RemoveMembers<T>(s: Slots<T>, x: T)
    ensures forall y :: Some(y) in Removed(s, x).cells <==> y != x && Some(y) in s.cells
    ensures NoDup(s) ==> NoDup(Removed(s, x))
    ensures Some(x) !in s.cells ==> Removed(s, x) == s
  {
    var r := Removed(s, x).cells;
    forall y | y != x && Some(y) in s.cells ensures Some(y) in r {
      var j :| 0 <= j < |s.cells| && s.cells[j] == Some(y);
      assert r[j] == Some(y);
    }
  }

  lemma {:induction false} RemoveCount<T>(s: Slots<T>, x: T)
    requires NoDup(s)
    ensures Count(Removed(s, x).cells) == Count(s.cells) - if Some(x) in s.cells then 1 else 0
    decreases |s.cells|
  {
    if s.cells == [] {
    } else {
      var t := s.(cells := s.cells[1..]);
      RemoveCount(t, x);
      assert Removed(s, x).cells[1..] == Removed(t, x).cells;
      assert s.cells == [s.cells[0]] + t.cells;
      forall j | 0 <= j < |t.cells| && s.cells[0] == Some(x) ensures t.cells[j] != Some(x) {
        assert t.cells[j] == s.cells[j + 1];
      }
    }
  }

  // ---- struct array ----

  class Array<T(==)> {
    var cells: array<Option<T>>
    var usedSlots: nat
    var maxSlots: nat

    ghost predicate Valid() reads this, cells {
      usedSlots == Count(cells[..])
    }

    ghost function View(): Slots<T> reads this, cells {
      Slots(cells[..], maxSlots)
    }

    // ar_new
    constructor (size: nat)
      ensures Valid() && View() == Slots(Nones(size), SIZE_MAX) && fresh(cells)
    {
      cells := new Option<T>[size](_ => None);
      usedSlots, maxSlots := 0, SIZE_MAX;
      new;
      NonesAreEmpty<T>(size);
      assert cells[..] == Nones(size);
    }

    // ar_next_available
    method NextAvailable() returns (i: int)
      ensures i == if FirstFree(cells[..]) < cells.Length then FirstFree(cells[..]) else -1
    {
      FirstFreeSplits(cells[..]);
      for k := 0 to cells.Length
        invariant forall j :: 0 <= j < k ==> cells[j].Some?
      {
        if cells[k].None? {
          assert FirstFree(cells[..]) == k by {
            assert cells[..][FirstFree(cells[..])] == cells[FirstFree(cells[..])];
          }
          return k;
        }
      }
      return -1;
    }

    // ar_grow
    method Grow() returns (ok: bool)
      modifies this`cells
      ensures ok == (old(cells.Length) < maxSlots)
      ensures ok ==> View() == Grown(old(View())) && fresh(cells)
      ensures !ok ==> cells == old(cells)
    {
      if cells.Length < maxSlots {
        var size := if cells.Length * 2 < maxSlots then cells.Length * 2 else maxSlots;
        var grown := new Option<T>[size](i requires 0 <= i < size reads this, cells =>
          if i < cells.Length then cells[i] else None);
        assert grown[..] == Grown(View()).cells;
        cells := grown;
        return true;
      }
      return false;
    }

    // ar_insert
    method Insert(x: T) returns (ok: bool)
      requires Valid()
      modifies this, cells
      ensures Valid() && View() == Inserted(old(View()), x)
      ensures ok == HasRoom(old(View()))
      ensures cells == old(cells) || fresh(cells)
    {
      hide Count, Elems, FirstFree;
      ghost var before := View();
      FirstFreeSplits(before.cells);
      GrownKeeps(before);
      if usedSlots == cells.Length {
        ok := Grow();
        if !ok {
          return;
        }
      }
      ghost var grown := cells[..];
      assert grown == (if Count(before.cells) == |before.cells| then Grown(before) else before).cells;
      FirstFreeSplits(grown);
      var i := NextAvailable();
      if i != -1 {
        FillCell(grown, i, x);
        cells[i] := Some(x);
        usedSlots := usedSlots + 1;
        assert cells[..] == grown[i := Some(x)];
        return true;
      }
      return false;
    }

    // ar_remove
    method Remove(x: T) returns (found: bool)
      requires Valid()
      modifies this`usedSlots, cells
      ensures Valid() && View() == Removed(old(View()), x)
      ensures found == Holds(old(View()), x)
    {
      ghost var before := cells[..];
      found := false;
      for i := 0 to cells.Length
        invariant forall k :: 0 <= k < i ==> cells[k] == if before[k] == Some(x) then None else before[k]
        invariant forall k :: i <= k < cells.Length ==> cells[k] == before[k]
        invariant usedSlots == Count(cells[..])
        invariant found <==> exists k :: 0 <= k < i && before[k] == Some(x)
      {
        if cells[i] == Some(x) {
          RemoveIndex(i);
          found := true;
        }
      }
      assert cells[..] == Removed(Slots(before, maxSlots), x).cells;
    }

    // ar_remove_index
    method RemoveIndex(idx: nat)
      requires Valid() && idx < cells.Length
      modifies this`usedSlots, cells
      ensures Valid() && cells[..] == old(cells[..])[idx := None]
    {
      if cells[idx] != None {
        ghost var before := cells[..];
        SetCell(before, idx, None);
        cells[idx] := None;
        assert cells[..] == before[idx := None];
        usedSlots := usedSlots - 1;
      }
    }

    // ar_has
    method Has(x: T) returns (found: bool)
      ensures found == Holds(View(), x)
    {
      for i := 0 to cells.Length
        invariant Some(x) !in cells[..i]
      {
        if cells[i] == Some(x) {
          assert cells[..][i] == Some(x);
          return true;
        }
      }
      assert cells[..cells.Length] == cells[..];
      return false;
    }

    // ar_get_n_elems_start_at: a window of the elements in slot order.
    method GetNElemsStartAt(maxElem: nat, startAt: nat, res: array<Option<T>>) returns (n: nat)
      requires Valid() && res.Length >= maxElem && res != cells
      modifies res
      ensures var live := Elems(cells[..]);
        var end := if startAt + maxElem < |live| then startAt + maxElem else |live|;
        var window := if startAt < |live| then live[startAt..end] else [];
        n == |window| && forall k :: 0 <= k < n ==> res[k] == Some(window[k])
    {
      hide Elems, Count;
      ghost var live := Elems(cells[..]);
      if usedSlots <= startAt {
        return 0;
      }
      ghost var c := cells[..];
      var seen := 0;
      n := 0;
      NoElems(c);
      for i := 0 to cells.Length
        invariant cells[..] == c
        invariant seen <= |live| && live[seen..] == Elems(c[i..])
        invariant n == if seen <= startAt then 0 else if seen <= startAt + maxElem then seen - startAt else maxElem
        invariant forall k :: 0 <= k < n ==> res[k] == Some(live[startAt + k])
      {
        NextElem(c, i, live, seen);
        if cells[i] != None {
          if startAt <= seen < startAt + maxElem {
            res[seen - startAt] := cells[i];
            n := n + 1;
          }
          seen := seen + 1;
        }
      }
    }

    // ar_free: refused while an element is left.
    method Free() returns (ok: bool)
      requires Valid()
      ensures ok <==> usedSlots == 0
    {
      for i := 0 to cells.Length
        invariant Count(cells[..i]) == 0
      {
        assert cells[..i + 1] == cells[..i] + [cells[i]];
        CountSplit(cells[..i], [cells[i]]);
        if cells[i] != None {
          assert cells[..] == cells[..i + 1] + cells[i + 1..];
          CountSplit(cells[..i + 1], cells[i + 1..]);
          return false;
        }
      }
      assert cells[..cells.Length] == cells[..];
      return true;
    }
  }
}
