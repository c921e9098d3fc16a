/** Sealing and checking of packets: packet_tools.c. */
module PacketTools {
  import opened Bytes
  import opened Crc

  function Poly(): word {
    Bits(0xEDB88320, 32)
  }

  lemma PolyHasTopBit()
    ensures Poly()[31]
  {
    BitAt(0xEDB88320, 32, 31);
    Pow2Table();
  }

  // A 32-bit word in memory, least significant byte first.
  function WordBytes(w: word): (s: seq<byte>)
    ensures |s| == 4
  {
    [ByteFrom(w[..8]), ByteFrom(w[8..16]), ByteFrom(w[16..24]), ByteFrom(w[24..])]
  }

  lemma ByteFromInjective(a: seq<bool>, b: seq<bool>)
    requires |a| == |b| == 8 && ByteFrom(a) == ByteFrom(b)
    ensures a == b
  {
    BitsOfValue(a, 0);
    BitsOfValue(b, 0);
    assert a + Zeros(0) == a && b + Zeros(0) == b;
  }

  lemma WordBytesInjective(v: word, w: word)
    requires WordBytes(v) == WordBytes(w)
    ensures v == w
  {
    assert ByteFrom(v[..8]) == WordBytes(v)[0] == WordBytes(w)[0];
    assert ByteFrom(v[8..16]) == WordBytes(v)[1] == WordBytes(w)[1];
    assert ByteFrom(v[16..24]) == WordBytes(v)[2] == WordBytes(w)[2];
    assert ByteFrom(v[24..]) == WordBytes(v)[3] == WordBytes(w)[3];
    ByteFromInjective(v[..8], w[..8]);
    ByteFromInjective(v[8..16], w[8..16]);
    ByteFromInjective(v[16..24], w[16..24]);
    ByteFromInjective(v[24..], w[24..]);
    assert v == v[..8] + v[8..16] + v[16..24] + v[24..];
    assert w == w[..8] + w[8..16] + w[16..24] + w[24..];
  }

  // The packet with its checksum field cleared: what the checksum is computed over.
  function Blank(p: seq<byte>, offset: nat): seq<byte>
    requires offset + 4 <= |p|
  {
    Overwrite(p, offset, [0, 0, 0, 0])
  }

  function Sum(p: seq<byte>, offset: nat): (s: seq<byte>)
    requires offset + 4 <= |p|
    ensures |s| == 4
  {
    WordBytes(Checksum(Blank(p, offset), Poly()))
  }

  function Seal(p: seq<byte>, offset: nat): (r: seq<byte>)
    requires offset + 4 <= |p|
    ensures |r| == |p|
  {
    Overwrite(p, offset, Sum(p, offset))
  }

  predicate Accepts(p: seq<byte>, offset: nat)
    requires offset + 4 <= |p|
  {
    p[offset..offset + 4] == Sum(p, offset)
  }

  // Two packets with the same contents outside the checksum field.
  ghost predicate SameContents(p: seq<byte>, q: seq<byte>, offset: nat)
    requires offset + 4 <= |p|
  {
    |p| == |q| && forall k :: 0 <= k < |p| && !(offset <= k < offset + 4) ==> p[k] == q[k]
  }

  // The seal depends on the contents alone: whatever stood in the field before is irrelevant.
  lemma SealIgnoresOldSum(p: seq<byte>, q: seq<byte>, offset: nat)
    requires offset + 4 <= |p| && SameContents(p, q, offset)
    ensures Seal(p, offset) == Seal(q, offset)
    ensures Sum(p, offset) == Sum(q, offset)
  {
    assert Blank(p, offset) == Blank(q, offset);
    assert Seal(p, offset) == Seal(q, offset);
  }

  // A packet passes the check exactly when sealing it again would change nothing;
  // in particular every sealed packet passes.
  lemma AcceptsExactlySealed(p: seq<byte>, offset: nat)
    requires offset + 4 <= |p|
    ensures Accepts(p, offset) <==> Seal(p, offset) == p
    ensures Accepts(Seal(p, offset), offset)
    ensures SameContents(p, Seal(p, offset), offset)
  {
    SealIgnoresOldSum(p, Seal(p, offset), offset);
    if Accepts(p, offset) {
      assert p == p[..offset] + p[offset..offset + 4] + p[offset + 4..];
    }
  }

  lemma {:induction false} MessageBitAt(s: seq<byte>, i: nat, j: nat)
    requires i < |s| && j < 8
    ensures MessageBits(s)[8 * i + j] == Bits(s[i], 8)[j]
    decreases i
  {
    if i == 0 {
    } else {
      MessageBitAt(s[1..], i - 1, j);
      assert MessageBits(s)[8 * i + j] == MessageBits(s[1..])[8 * (i - 1) + j];
    }
  }

  // Byte strings that agree at a byte agree at its bits.
  lemma SameByteSameBit(s: seq<byte>, t: seq<byte>, k: nat)
    requires |s| == |t| && k < 8 * |s|
    requires s[k / 8] == t[k / 8]
    ensures MessageBits(s)[k] == MessageBits(t)[k]
  {
    MessageBitAt(s, k / 8, k % 8);
    MessageBitAt(t, k / 8, k % 8);
  }

  // Clearing equal checksum fields hides no difference and makes none.
  lemma BlankKeepsDifferences(p: seq<byte>, q: seq<byte>, offset: nat)
    requires offset + 4 <= |p| == |q| && q[offset..offset + 4] == p[offset..offset + 4]
    ensures forall k :: 0 <= k < |p| ==> (p[k] == q[k] <==> Blank(p, offset)[k] == Blank(q, offset)[k])
  {
    forall k | offset <= k < offset + 4 ensures p[k] == q[k] {
      assert p[offset..offset + 4][k - offset] == q[offset..offset + 4][k - offset];
    }
  }

  lemma BlankKeepsBits(p: seq<byte>, offset: nat, k: nat)
    requires offset + 4 <= |p| && k < 8 * |p|
    requires !(offset <= k / 8 < offset + 4)
    ensures MessageBits(p)[k] == MessageBits(Blank(p, offset))[k]
  {
    SameByteSameBit(p, Blank(p, offset), k);
  }

  // Every change to an accepted packet that stays within 32 consecutive bits, wherever they
  // start, and leaves the checksum field alone makes the check fail.
  lemma BurstIsRejected(p: seq<byte>, q: seq<byte>, offset: nat, from: nat)
    requires offset + 4 <= |p| && Accepts(p, offset)
    requires |q| == |p| && q != p && q[offset..offset + 4] == p[offset..offset + 4]
    requires from + 32 <= 8 * |p|
    requires forall k :: 0 <= k < 8 * |p| && !(from <= k < from + 32) ==> MessageBits(p)[k] == MessageBits(q)[k]
    ensures !Accepts(q, offset)
  {
    var b, c := Blank(p, offset), Blank(q, offset);
    forall k | 0 <= k < 8 * |p| && !(from <= k < from + 32) ensures MessageBits(b)[k] == MessageBits(c)[k] {
      if offset <= k / 8 < offset + 4 {
        SameByteSameBit(b, c, k);
      } else {
        BlankKeepsBits(p, offset, k);
        BlankKeepsBits(q, offset, k);
      }
    }
    BlankKeepsDifferences(p, q, offset);
    var d :| 0 <= d < |p| && p[d] != q[d];
    assert b[d] != c[d];
    PolyHasTopBit();
    BurstsAreDetected(b, c, from, Poly());
    if Accepts(q, offset) {
      WordBytesInjective(Checksum(b, Poly()), Checksum(c, Poly()));
    }
  }

  // The same for whole bytes: up to four consecutive altered bytes outside the field, or
  // any alteration inside it, never pass.
  lemma AlteredWindowIsRejected(p: seq<byte>, q: seq<byte>, offset: nat, from: nat)
    requires offset + 4 <= |p| && Accepts(p, offset)
    requires |q| == |p| && q != p && from + 4 <= |p|
    requires forall k :: 0 <= k < |p| && !(from <= k < from + 4) ==> p[k] == q[k]
    requires from == offset || q[offset..offset + 4] == p[offset..offset + 4]
    ensures !Accepts(q, offset)
  {
    if q[offset..offset + 4] == p[offset..offset + 4] {
      forall k | 0 <= k < 8 * |p| && !(8 * from <= k < 8 * from + 32) ensures MessageBits(p)[k] == MessageBits(q)[k] {
        SameByteSameBit(p, q, k);
      }
      BurstIsRejected(p, q, offset, 8 * from);
    } else {
      SealIgnoresOldSum(p, q, offset);
    }
  }

  // packet_add_crc
  method PacketAddCrc(data: array<byte>, len: nat, offset: nat)
    requires offset + 4 <= len <= data.Length
    modifies data
    ensures data[..len] == Seal(old(data[..len]), offset)
    ensures data[len..] == old(data[len..])
  {
    hide Overwrite, Checksum, Poly, WordBytes;
    ghost var p := data[..];
    assert p[..len] == data[..len] && p[len..] == data[len..];
    Store4(data, offset, [0, 0, 0, 0]);
    OverwriteWithin(p, len, offset, [0, 0, 0, 0]);
    ghost var q := data[..];
    assert q[..len] == data[..len] == Blank(p[..len], offset);
    var sum := Crc32(data, len, Poly());
    Store4(data, offset, WordBytes(sum));
    OverwriteWithin(q, len, offset, WordBytes(sum));
    assert data[..][..len] == data[..len] && data[..][len..] == data[len..] == p[len..];
    SealOfBlank(p[..len], offset, WordBytes(sum));
  }

  // Writing inside a prefix of a buffer.
  lemma OverwriteWithin(s: seq<byte>, len: nat, at: nat, block: seq<byte>)
    requires at + |block| <= len <= |s|
    ensures Overwrite(s, at, block)[..len] == Overwrite(s[..len], at, block)
    ensures Overwrite(s, at, block)[len..] == s[len..]
  {
  }

  lemma SealOfBlank(p: seq<byte>, offset: nat, sum: seq<byte>)
    requires offset + 4 <= |p| && |sum| == 4
    ensures Overwrite(Blank(p, offset), offset, sum) == Overwrite(p, offset, sum)
  {
  }

  // A 32-bit store.
  method Store4(data: array<byte>, at: nat, bytes: seq<byte>)
    requires at + 4 <= data.Length && |bytes| == 4
    modifies data
    ensures data[..] == Overwrite(old(data[..]), at, bytes)
  {
    data[at], data[at + 1], data[at + 2], data[at + 3] := bytes[0], bytes[1], bytes[2], bytes[3];
  }

  // packet_check_crc: works on a copy, so the packet itself is untouched.
  method PacketCheckCrc(data: array<byte>, len: nat, offset: nat) returns (ok: bool)
    requires offset + 4 <= len <= data.Length
    ensures ok <==> Accepts(data[..len], offset)
  {
    var buff := new byte[len](i requires 0 <= i < len reads data => data[i]);
    assert buff[..] == data[..len];
    var oldSum := buff[offset..offset + 4];
    Store4(buff, offset, [0, 0, 0, 0]);
    assert buff[..len] == Blank(data[..len], offset);
    var sum := Crc32(buff, len, Poly());
    ok := WordBytes(sum) == oldSum;
  }
}
