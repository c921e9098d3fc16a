/** Allocation of small identifiers by scanning a table of used ones: add_channel, add_player
    and add_ban of server.c. */
module Ids {
  import opened Wrappers

  // The identifiers of the live entries fit the table: within 1..total, no two alike.
  ghost predicate Fit(ids: seq<nat>, total: nat) {
    && (forall i :: 0 <= i < |ids| ==> 1 <= ids[i] <= total)
    && (forall i, j :: 0 <= i < j < |ids| ==> ids[i] != ids[j])
  }

  // The first identifier from the given one on that is not in use, at most total + 1.
  function NextFree(ids: seq<nat>, total: nat, from: nat): (id: nat)
    decreases total + 1 - from
    ensures from <= total + 1 ==> from <= id <= total + 1
  {
    if from <= total && from in ids then NextFree(ids, total, from + 1) else from
  }

  lemma {:induction false} NextFreeIsLeast(ids: seq<nat>, total: nat, from: nat)
    requires from <= total + 1
    ensures forall k :: from <= k < NextFree(ids, total, from) ==> k in ids
    ensures NextFree(ids, total, from) <= total ==> NextFree(ids, total, from) !in ids
    decreases total + 1 - from
  {
    if from <= total && from in ids {
      NextFreeIsLeast(ids, total, from + 1);
    }
  }

  ghost function UpTo(n: nat): (s: set<nat>)
    ensures forall k :: k in s <==> 1 <= k <= n
  {
    if n == 0 then {} else UpTo(n - 1) + {n}
  }

  lemma {:induction false} UpToSize(n: nat)
    ensures |UpTo(n)| == n
  {
    if n == 0 {
    } else {
      UpToSize(n - 1);
    }
  }

  ghost function SetOf(ids: seq<nat>): set<nat> {
    set id | id in ids
  }

  lemma {:induction false} SetOfSize(ids: seq<nat>)
    ensures |SetOf(ids)| <= |ids|
    ensures (forall i, j :: 0 <= i < j < |ids| ==> ids[i] != ids[j]) ==> |SetOf(ids)| == |ids|
  {
    if ids == [] {
      assert SetOf(ids) == {};
    } else {
      var last, rest := ids[|ids| - 1], ids[..|ids| - 1];
      SetOfSize(rest);
      assert ids == rest + [last];
      assert SetOf(ids) == SetOf(rest) + {last};
    }
  }

  lemma SubsetSize(a: set<nat>, b: set<nat>)
    requires a <= b
    ensures |a| <= |b|
    ensures |a| == |b| ==> a == b
  {
    var rest := b - a;
    assert b == a + rest;
    if |a| == |b| {
      assert rest == {};
    }
  }

  // Pigeonhole: the scan runs past the table exactly when every slot is taken.
  lemma ScanRunsPastExactly(ids: seq<nat>, total: nat)
    requires Fit(ids, total)
    ensures |ids| <= total
    ensures NextFree(ids, total, 1) == total + 1 <==> |ids| == total
  {
    NextFreeIsLeast(ids, total, 1);
    UpToSize(total);
    SetOfSize(ids);
    assert SetOf(ids) <= UpTo(total);
    SubsetSize(SetOf(ids), UpTo(total));
    if NextFree(ids, total, 1) == total + 1 {
      assert UpTo(total) <= SetOf(ids);
      SubsetSize(UpTo(total), SetOf(ids));
    } else {
      var id := NextFree(ids, total, 1);
      assert 1 <= id <= total;
      assert id in UpTo(total);
      assert id !in SetOf(ids);
    }
  }

  // The identifier handed out is the least one not in use, and adding it keeps the
  // identifiers distinct and within the table, once that has a slot more if it was full.
  lemma AllocationKeepsFit(ids: seq<nat>, total: nat, total': nat)
    requires Fit(ids, total) && total <= total'
    requires |ids| == total ==> total < total'
    ensures var id := NextFree(ids, total, 1);
      && 1 <= id <= total' && id !in ids
      && (forall k :: 1 <= k < id ==> k in ids)
      && Fit(ids + [id], total')
  {
    ScanRunsPastExactly(ids, total);
    NextFreeIsLeast(ids, total, 1);
    var id := NextFree(ids, total, 1);
    assert id !in ids && id <= total';
    forall i, j | 0 <= i < j < |ids + [id]| ensures (ids + [id])[i] != (ids + [id])[j] {
      assert ids[i] in ids;
    }
  }

  // Mark the used identifiers: entry k stands for identifier k + 1.
  method MarkUsed(ids: seq<nat>, total: nat) returns (usedIds: array<bool>)
    requires Fit(ids, total)
    ensures fresh(usedIds) && usedIds.Length == total
    ensures forall k :: 0 <= k < total ==> usedIds[k] == (k + 1 in ids)
  {
    usedIds := new bool[total](_ => false);
    for i := 0 to |ids|
      invariant forall k :: 0 <= k < total ==> usedIds[k] == (k + 1 in ids[..i])
    {
      usedIds[ids[i] - 1] := true;
      assert ids[..i + 1] == ids[..i] + [ids[i]];
    }
    assert ids[..|ids|] == ids;
  }

  // The scan of add_channel, which stops at the end of the table.
  method ScanGuarded(ids: seq<nat>, total: nat) returns (id: nat)
    requires Fit(ids, total)
    ensures id == NextFree(ids, total, 1)
  {
    var usedIds := MarkUsed(ids, total);
    id := 0;
    while id < total && usedIds[id]
      invariant id <= total
      invariant NextFree(ids, total, 1) == NextFree(ids, total, id + 1)
    {
      id := id + 1;
    }
    id := id + 1;
  }

  // The scan of add_player and add_ban, which does not. `past` says whether the byte behind
  // the table happens to be 1; what follows that byte is not modelled, so the scan has no result
  // if it gets there.
  method ScanUnguarded(ids: seq<nat>, total: nat, past: bool) returns (id: Option<nat>)
    requires Fit(ids, total)
    ensures |ids| < total ==> id == Some(NextFree(ids, total, 1)) && id.value <= total
    ensures |ids| == total && !past ==> id == Some(total + 1) && id.value == NextFree(ids, total, 1)
    ensures |ids| == total && past ==> id == None
  {
    var usedIds := MarkUsed(ids, total);
    ScanRunsPastExactly(ids, total);
    var newId := 0;
    while true
      invariant newId <= total
      invariant NextFree(ids, total, 1) == NextFree(ids, total, newId + 1)
      decreases total - newId
    {
      if newId == total {
        return if past then None else Some(newId + 1);
      }
      if !usedIds[newId] {
        return Some(newId + 1);
      }
      newId := newId + 1;
    }
  }
}
