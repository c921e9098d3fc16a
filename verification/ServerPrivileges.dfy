/** The server privileges and their bit field: server_privileges.c. */
module ServerPrivileges {
  import opened Bytes

  const GROUPS: nat := 6
  const SP_SIZE: nat := 88
  const STRIDE: nat := 72   // bits from one group to the next: rows of 88 overlap in 16
  const EMPTY: nat := 16    // the columns of a row that carry no privilege
  const TOUCHED: nat := 56  // bytes

  // new_sp
  function NoPrivileges(): (m: seq<seq<bool>>)
    ensures |m| == GROUPS && forall g :: 0 <= g < GROUPS ==> |m[g]| == SP_SIZE
  {
    seq(GROUPS, _ => Zeros(SP_SIZE))
  }

  type Privileges = m: seq<seq<bool>> | |m| == GROUPS && forall g :: 0 <= g < GROUPS ==> |m[g]| == SP_SIZE
    witness NoPrivileges()

  // Bit k of a buffer, the most significant bit of each byte first.
  function BitOf(data: seq<byte>, k: nat): bool
    requires k < 8 * |data|
  {
    Bits(data[k / 8], 8)[7 - k % 8]
  }

  // That is the parity of the byte divided by 128 for the first bit, by 64 for the next, and so on.
  lemma BitOfExactly(data: seq<byte>, k: nat)
    requires k < 8 * |data|
    ensures BitOf(data, k) <==> data[k / 8] / Pow(2, 7 - k % 8) % 2 == 1
  {
    BitAt(data[k / 8], 8, 7 - k % 8);
  }

  // Or-ing a byte with one bit, counted from the most significant one.
  function WithBit(b: byte, bit: nat): byte
    requires bit < 8
  {
    ByteFrom(Bits(b, 8)[7 - bit := true])
  }

  lemma WithBitSets(b: byte, bit: nat)
    requires bit < 8
    ensures Bits(WithBit(b, bit), 8) == Bits(b, 8)[7 - bit := true]
  {
    var s := Bits(b, 8)[7 - bit := true];
    BitsOfValue(s, 0);
    assert s + Zeros(0) == s;
  }

  // Whether some cell that lies on bit k, among the cells of the groups before g and the first
  // p cells of group g, is set. At most two cells lie on a bit.
  predicate SetBefore(m: Privileges, g: nat, p: nat, k: nat)
    requires k < 8 * TOUCHED
  {
    || (k / STRIDE < GROUPS && (k / STRIDE < g || (k / STRIDE == g && k % STRIDE < p)) && m[k / STRIDE][k % STRIDE])
    || (k >= STRIDE && k % STRIDE < EMPTY && (k / STRIDE - 1 < g || (k / STRIDE - 1 == g && k % STRIDE + STRIDE < p))
        && m[k / STRIDE - 1][k % STRIDE + STRIDE])
  }

  lemma Cell(g: nat, p: nat)
    requires g < GROUPS && p < SP_SIZE
    ensures var k := STRIDE * g + p;
      && k < 8 * TOUCHED && k / 8 == g * 9 + p / 8 && k % 8 == p % 8
      && (p < STRIDE ==> k / STRIDE == g && k % STRIDE == p)
      && (p >= STRIDE ==> k / STRIDE == g + 1 && k % STRIDE == p - STRIDE)
  {
  }

  lemma NextCell(m: Privileges, g: nat, p: nat, k: nat)
    requires g < GROUPS && p < SP_SIZE && k < 8 * TOUCHED
    ensures SetBefore(m, g, p + 1, k) <==> SetBefore(m, g, p, k) || (k == STRIDE * g + p && m[g][p])
  {
    Cell(g, p);
    assert k == STRIDE * (k / STRIDE) + k % STRIDE;
  }

  lemma NextRow(m: Privileges, g: nat, k: nat)
    requires g < GROUPS && k < 8 * TOUCHED
    ensures SetBefore(m, g, SP_SIZE, k) <==> SetBefore(m, g + 1, 0, k)
  {
  }

  // Every bit is the old one, or-ed with the cells that lie on it.
  ghost predicate Packs(before: seq<byte>, after: seq<byte>, m: Privileges) {
    && |before| == |after| >= TOUCHED && after[TOUCHED..] == before[TOUCHED..]
    && forall k :: 0 <= k < 8 * TOUCHED ==>
         (BitOf(after, k) <==>
           BitOf(before, k) || exists g, p :: 0 <= g < GROUPS && 0 <= p < SP_SIZE && OnBit(m, g, p, k))
  }

  predicate OnBit(m: Privileges, g: nat, p: nat, k: nat)
    requires g < GROUPS && p < SP_SIZE
  {
    k == STRIDE * g + p && m[g][p]
  }

  lemma AllCells(m: Privileges, k: nat)
    requires k < 8 * TOUCHED
    ensures SetBefore(m, GROUPS, 0, k) <==> exists g, p :: 0 <= g < GROUPS && 0 <= p < SP_SIZE && OnBit(m, g, p, k)
  {
    assert k == STRIDE * (k / STRIDE) + k % STRIDE;
    if SetBefore(m, GROUPS, 0, k) {
      if k / STRIDE < GROUPS && m[k / STRIDE][k % STRIDE] {
        assert OnBit(m, k / STRIDE, k % STRIDE, k);
      } else {
        assert OnBit(m, k / STRIDE - 1, k % STRIDE + STRIDE, k);
      }
    }
    forall g, p | 0 <= g < GROUPS && 0 <= p < SP_SIZE && OnBit(m, g, p, k) ensures SetBefore(m, GROUPS, 0, k) {
      Cell(g, p);
    }
  }

  // One assignment of the inner loop.
  lemma BitSet(before: seq<byte>, after: seq<byte>, at: nat, bit: nat)
    requires at < |before| && bit < 8 && after == before[at := WithBit(before[at], bit)]
    ensures forall k :: 0 <= k < 8 * |before| ==> (BitOf(after, k) <==> BitOf(before, k) || k == 8 * at + bit)
  {
    WithBitSets(before[at], bit);
    forall k | 0 <= k < 8 * |before| ensures BitOf(after, k) <==> BitOf(before, k) || k == 8 * at + bit {
      assert k == 8 * (k / 8) + k % 8;
    }
  }

  // sp_to_bitfield: it says 54 and touches 56 bytes.
  method SpToBitfield(m: Privileges, data: array<byte>) returns (size: nat)
    requires data.Length >= TOUCHED
    modifies data
    ensures Packs(old(data[..]), data[..], m)
    ensures size == 54
  {
    ghost var before := data[..];
    for grp := 0 to GROUPS
      invariant data[TOUCHED..] == before[TOUCHED..]
      invariant forall k :: 0 <= k < 8 * TOUCHED ==>
          (BitOf(data[..], k) <==> BitOf(before, k) || SetBefore(m, grp, 0, k))
    {
      for priv := 0 to SP_SIZE
        invariant data[TOUCHED..] == before[TOUCHED..]
        invariant forall k :: 0 <= k < 8 * TOUCHED ==>
            (BitOf(data[..], k) <==> BitOf(before, k) || SetBefore(m, grp, priv, k))
      {
        PackCell(m, grp, priv, data, before);
      }
      forall k | 0 <= k < 8 * TOUCHED ensures SetBefore(m, grp, SP_SIZE, k) <==> SetBefore(m, grp + 1, 0, k) {
        NextRow(m, grp, k);
      }
    }
    forall k | 0 <= k < 8 * TOUCHED
      ensures SetBefore(m, GROUPS, 0, k) <==> exists g, p :: 0 <= g < GROUPS && 0 <= p < SP_SIZE && OnBit(m, g, p, k)
    {
      AllCells(m, k);
    }
    return 6 * 9;
  }

  method PackCell(m: Privileges, grp: nat, priv: nat, data: array<byte>, ghost before: seq<byte>)
    requires grp < GROUPS && priv < SP_SIZE && data.Length >= TOUCHED && |before| == data.Length
    requires forall k :: 0 <= k < 8 * TOUCHED ==>
        (BitOf(data[..], k) <==> BitOf(before, k) || SetBefore(m, grp, priv, k))
    modifies data
    ensures data[TOUCHED..] == old(data[TOUCHED..])
    ensures forall k :: 0 <= k < 8 * TOUCHED ==>
        (BitOf(data[..], k) <==> BitOf(before, k) || SetBefore(m, grp, priv + 1, k))
  {
    hide SetBefore, BitOf, WithBit;
    ghost var was := data[..];
    var bit := priv % 8;
    Cell(grp, priv);
    if m[grp][priv] {
      data[grp * 9 + priv / 8] := WithBit(data[grp * 9 + priv / 8], bit);
      BitSet(was, data[..], grp * 9 + priv / 8, bit);
    }
    forall k | 0 <= k < 8 * TOUCHED
      ensures SetBefore(m, grp, priv + 1, k)
          <==> SetBefore(m, grp, priv, k) || (k == STRIDE * grp + priv && m[grp][priv])
    {
      NextCell(m, grp, priv, k);
    }
  }

  // ---- Losslessness ----

  // The bit a cell is put on.
  predicate CellBit(data: seq<byte>, g: nat, p: nat)
    requires |data| >= TOUCHED && g < GROUPS && p < SP_SIZE
  {
    BitOf(data, 72 * g + p)
  }

  // Reading the cells that carry privileges where they were put.
  ghost predicate ReadsBack(data: seq<byte>, m: Privileges)
    requires |data| >= TOUCHED
  {
    forall g, p :: 0 <= g < 6 && 16 <= p < 88 ==> (CellBit(data, g, p) <==> m[g][p])
  }

  // A row has something in a column that should be empty, where the row before it ends unset.
  predicate Clashes(m: Privileges, g: nat, p: nat)
    requires 1 <= g < GROUPS && p < EMPTY
  {
    m[g][p] && !m[g - 1][p + STRIDE]
  }

  ghost predicate OverlapsHarmlessly(m: Privileges) {
    forall g, p :: 1 <= g < GROUPS && 0 <= p < EMPTY ==> !Clashes(m, g, p)
  }

  lemma AtBit(before: seq<byte>, after: seq<byte>, m: Privileges, g: nat, p: nat)
    requires Packs(before, after, m) && g < GROUPS && EMPTY <= p < SP_SIZE
    requires forall k :: 0 <= k < 8 * TOUCHED ==> !BitOf(before, k)
    ensures CellBit(after, g, p) <==> m[g][p] || (p >= STRIDE && g + 1 < GROUPS && m[g + 1][p - STRIDE])
  {
    hide BitOf;
    Cell(g, p);
    var k := STRIDE * g + p;
    AllCells(m, k);
  }

  // From a zeroed buffer, the field carries every privilege exactly when the overlapping
  // columns are harmless; in particular when they are empty, as the source keeps them.
  lemma LosslessExactly(before: seq<byte>, after: seq<byte>, m: Privileges)
    requires Packs(before, after, m)
    requires forall k :: 0 <= k < 8 * TOUCHED ==> !BitOf(before, k)
    ensures ReadsBack(after, m) <==> OverlapsHarmlessly(m)
  {
    hide CellBit;
    if ReadsBack(after, m) {
      forall g, p | 1 <= g < GROUPS && 0 <= p < EMPTY ensures !Clashes(m, g, p) {
        AtBit(before, after, m, g - 1, p + STRIDE);
        assert CellBit(after, g - 1, p + STRIDE) <==> m[g - 1][p + STRIDE];
      }
    }
    if OverlapsHarmlessly(m) {
      forall g, p | 0 <= g < GROUPS && EMPTY <= p < SP_SIZE ensures CellBit(after, g, p) <==> m[g][p] {
        AtBit(before, after, m, g, p);
        if p >= STRIDE && g + 1 < GROUPS {
          assert !Clashes(m, g + 1, p - STRIDE);
        }
      }
    }
  }
}
