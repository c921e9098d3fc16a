/** The table-driven CRC of crc.c, against the bit-serial shift register it stands for. */
module Crc {
  import opened Bytes

  // A uint32_t as its bits, least significant first.
  type word = w: seq<bool> | |w| == 32 witness Zeros(32)

  function Xor(a: seq<bool>, b: seq<bool>): (c: seq<bool>)
    requires |a| == |b|
    ensures |c| == |a|
    ensures forall i :: 0 <= i < |c| ==> c[i] == (a[i] != b[i])
  {
    seq(|a|, i requires 0 <= i < |a| => a[i] != b[i])
  }

  function ShiftRight(c: word, n: nat): word
    requires n <= 32
  {
    c[n..] + Zeros(n)
  }

  // One step of the reflected shift register.
  function Step(c: word, poly: word): word {
    if c[0] then Xor(ShiftRight(c, 1), poly) else ShiftRight(c, 1)
  }

  function Steps(c: word, poly: word, n: nat): word
    decreases n
  {
    if n == 0 then c else Steps(Step(c, poly), poly, n - 1)
  }

  // ---- The reference: message bits enter the register one at a time ----

  function MessageBits(data: seq<byte>): (m: seq<bool>)
    ensures |m| == 8 * |data|
  {
    if data == [] then [] else Bits(data[0], 8) + MessageBits(data[1..])
  }

  function FeedBit(c: word, bit: bool, poly: word): word {
    Step(c[0 := c[0] != bit], poly)
  }

  function Serial(c: word, m: seq<bool>, poly: word): word
    decreases m
  {
    if m == [] then c else Serial(FeedBit(c, m[0], poly), m[1..], poly)
  }

  function Ones(): word {
    seq(32, _ => true)
  }

  // The checksum of section 8 of RFC 1952: register preset to ones, result inverted.
  function Checksum(data: seq<byte>, poly: word): word {
    Xor(Serial(Ones(), MessageBits(data), poly), Ones())
  }

  // ---- Algebra of the register ----

  lemma StepIsLinear(a: word, b: word, poly: word)
    ensures Step(Xor(a, b), poly) == Xor(Step(a, poly), Step(b, poly))
  {
  }

  // The register update is linear over exclusive or: the difference of two runs is
  // the run of the difference.
  lemma {:induction false} SerialIsLinear(c: word, d: word, m: seq<bool>, n: seq<bool>, poly: word)
    requires |m| == |n|
    ensures Xor(Serial(c, m, poly), Serial(d, n, poly)) == Serial(Xor(c, d), Xor(m, n), poly)
    decreases m
  {
    if m == [] {
    } else {
      var c', d' := c[0 := c[0] != m[0]], d[0 := d[0] != n[0]];
      assert Xor(c', d') == Xor(c, d)[0 := Xor(c, d)[0] != Xor(m, n)[0]];
      StepIsLinear(c', d', poly);
      assert Xor(m[1..], n[1..]) == Xor(m, n)[1..];
      SerialIsLinear(FeedBit(c, m[0], poly), FeedBit(d, n[0], poly), m[1..], n[1..], poly);
    }
  }

  lemma {:induction false} SerialAppend(c: word, s: seq<bool>, t: seq<bool>, poly: word)
    ensures Serial(c, s + t, poly) == Serial(Serial(c, s, poly), t, poly)
    decreases s
  {
    if s == [] {
      assert s + t == t;
    } else {
      assert (s + t)[0] == s[0] && (s + t)[1..] == s[1..] + t;
      SerialAppend(FeedBit(c, s[0], poly), s[1..], t, poly);
    }
  }

  // Up to 32 bits may be added to the register first and stepped through afterwards.
  lemma {:induction false} SerialIsBatched(c: word, m: seq<bool>, poly: word)
    requires |m| <= 32
    ensures Serial(c, m, poly) == Steps(Xor(c, m + Zeros(32 - |m|)), poly, |m|)
    decreases m
  {
    if m == [] {
      assert Xor(c, m + Zeros(32)) == c;
    } else {
      var first: word := c[0 := c[0] != m[0]];
      var rest: word := [false] + m[1..] + Zeros(32 - |m|);
      assert Xor(c, m + Zeros(32 - |m|)) == Xor(first, rest);
      StepIsLinear(first, rest, poly);
      assert Step(rest, poly) == m[1..] + Zeros(32 - |m[1..]|);
      SerialIsBatched(FeedBit(c, m[0], poly), m[1..], poly);
    }
  }

  lemma {:induction false} StepsAreLinear(a: word, b: word, poly: word, n: nat)
    ensures Steps(Xor(a, b), poly, n) == Xor(Steps(a, poly, n), Steps(b, poly, n))
    decreases n
  {
    if n == 0 {
    } else {
      StepIsLinear(a, b, poly);
      StepsAreLinear(Step(a, poly), Step(b, poly), poly, n - 1);
    }
  }

  // While only zero bits leave the register, the polynomial never enters.
  lemma {:induction false} ZeroBitsOnlyShift(c: word, poly: word, n: nat)
    requires n <= 32 && forall k :: 0 <= k < n ==> !c[k]
    ensures Steps(c, poly, n) == ShiftRight(c, n)
    decreases n
  {
    if n > 0 {
      ZeroBitsOnlyShift(ShiftRight(c, 1), poly, n - 1);
      assert ShiftRight(ShiftRight(c, 1), n - 1) == ShiftRight(c, n);
    } else {
      assert ShiftRight(c, 0) == c;
    }
  }

  // ---- The table ----

  function TableEntry(i: nat, poly: word): word
    requires i < 256
  {
    Steps(Bits(i, 32), poly, 8)
  }

  // (crc >> 8) ^ table[(byte ^ crc) & 0xFF]
  function ByTable(c: word, b: byte, poly: word): word {
    Xor(ShiftRight(c, 8), TableEntry(ByteFrom(Xor(Bits(b, 8), c[..8])), poly))
  }

  // One table lookup does the work of the eight bits of a byte.
  lemma TableStepIsSerial(c: word, b: byte, poly: word)
    ensures ByTable(c, b, poly) == Serial(c, Bits(b, 8), poly)
  {
    hide Steps, Serial;
    var low := Xor(Bits(b, 8), c[..8]);
    var lowWord: word := low + Zeros(24);
    var high: word := Zeros(8) + c[8..];
    BitsOfValue(low, 24);
    SerialIsBatched(c, Bits(b, 8), poly);
    assert Xor(c, Bits(b, 8) + Zeros(24)) == Xor(high, lowWord);
    StepsAreLinear(high, lowWord, poly, 8);
    ZeroBitsOnlyShift(high, poly, 8);
    assert ShiftRight(high, 8) == ShiftRight(c, 8);
  }

  lemma {:induction false} MessageBitsAppend(s: seq<byte>, t: seq<byte>)
    ensures MessageBits(s + t) == MessageBits(s) + MessageBits(t)
  {
    if s == [] {
      assert s + t == t;
    } else {
      assert (s + t)[1..] == s[1..] + t;
      MessageBitsAppend(s[1..], t);
    }
  }

  // crc32_table
  method Crc32Table(poly: word, table: array<word>)
    requires table.Length == 256
    modifies table
    ensures forall i :: 0 <= i < 256 ==> table[i] == TableEntry(i, poly)
  {
    for i := 0 to 256
      invariant forall k :: 0 <= k < i ==> table[k] == TableEntry(k, poly)
    {
      table[i] := Bits(i, 32);
      EightShifts(table, i, poly);
    }
  }

  // The inner loop of crc32_table, on one entry.
  method EightShifts(table: array<word>, i: nat, poly: word)
    requires i < table.Length
    modifies table
    ensures table[..] == old(table[..])[i := Steps(old(table[i]), poly, 8)]
  {
    var j := 8;
    while j > 0
      invariant 0 <= j <= 8
      invariant Steps(table[i], poly, j) == Steps(old(table[i]), poly, 8)
      invariant table[..] == old(table[..])[i := table[i]]
    {
      if table[i][0] {
        table[i] := Xor(ShiftRight(table[i], 1), poly);
      } else {
        table[i] := ShiftRight(table[i], 1);
      }
      j := j - 1;
    }
  }

  // crc_32: for every byte string and every polynomial, the table loop computes
  // the bit-serial checksum.
  method Crc32(data: array<byte>, length: nat, poly: word) returns (sum: word)
    requires length <= data.Length
    ensures sum == Checksum(data[..length], poly)
  {
    var table := new word[256](_ => Zeros(32));
    Crc32Table(poly, table);
    var crc: word := Ones();
    for i := 0 to length
      invariant forall k :: 0 <= k < 256 ==> table[k] == TableEntry(k, poly)
      invariant crc == Serial(Ones(), MessageBits(data[..i]), poly)
    {
      TableStepIsSerial(crc, data[i], poly);
      assert data[..i + 1] == data[..i] + [data[i]];
      MessageBitsAppend(data[..i], [data[i]]);
      assert MessageBits([data[i]]) == Bits(data[i], 8);
      SerialAppend(Ones(), MessageBits(data[..i]), Bits(data[i], 8), poly);
      crc := Xor(ShiftRight(crc, 8), table[ByteFrom(Xor(Bits(data[i], 8), crc[..8]))]);
    }
    sum := Xor(crc, Ones());
  }

  // ---- Error detection ----

  // With bit 31 of the polynomial set, a step loses nothing: the bit that left can be
  // read off the top of the register.
  lemma {:induction false} StepsKeepNonZero(c: word, poly: word, n: nat)
    requires poly[31] && c != Zeros(32)
    ensures Steps(c, poly, n) != Zeros(32)
    decreases n
  {
    if n == 0 {
    } else {
      if c[0] {
        assert Step(c, poly)[31];
      } else {
        var k :| 0 <= k < 32 && c[k];
        assert Step(c, poly)[k - 1];
      }
      StepsKeepNonZero(Step(c, poly), poly, n - 1);
    }
  }

  lemma {:induction false} ZeroMessageSteps(c: word, n: nat, poly: word)
    ensures Serial(c, Zeros(n), poly) == Steps(c, poly, n)
    decreases n
  {
    if n == 0 {
    } else {
      assert Zeros(n)[1..] == Zeros(n - 1);
      assert c[0 := c[0] != false] == c;
      ZeroMessageSteps(Step(c, poly), n - 1, poly);
    }
  }

  lemma {:induction false} ZeroRegisterStays(poly: word, n: nat)
    ensures Steps(Zeros(32), poly, n) == Zeros(32)
    decreases n
  {
    if n == 0 {
    } else {
      assert Step(Zeros(32), poly) == Zeros(32);
      ZeroRegisterStays(poly, n - 1);
    }
  }

  // A change goes unnoticed exactly when the changed bits, run alone from an empty
  // register, leave it empty.
  lemma UndetectedExactly(s: seq<byte>, t: seq<byte>, poly: word)
    requires |s| == |t|
    ensures Checksum(s, poly) == Checksum(t, poly)
       <==> Serial(Zeros(32), Xor(MessageBits(s), MessageBits(t)), poly) == Zeros(32)
  {
    var m, n := MessageBits(s), MessageBits(t);
    var a, b := Serial(Ones(), m, poly), Serial(Ones(), n, poly);
    SerialIsLinear(Ones(), Ones(), m, n, poly);
    assert Xor(Ones(), Ones()) == Zeros(32);
    assert Xor(a, Ones()) == Xor(b, Ones()) <==> a == b by {
      if Xor(a, Ones()) == Xor(b, Ones()) {
        forall k | 0 <= k < 32 ensures a[k] == b[k] {
          assert Xor(a, Ones())[k] == Xor(b, Ones())[k];
        }
      }
    }
    assert Xor(a, b) == Zeros(32) <==> a == b by {
      if Xor(a, b) == Zeros(32) {
        forall k | 0 <= k < 32 ensures a[k] == b[k] {
          assert !Xor(a, b)[k];
        }
      }
    }
  }

  // Every change confined to 32 consecutive bits changes the checksum.
  lemma BurstsAreDetected(s: seq<byte>, t: seq<byte>, from: nat, poly: word)
    requires |s| == |t| && s != t
    requires from + 32 <= 8 * |s|
    requires forall k :: 0 <= k < 8 * |s| && !(from <= k < from + 32) ==> MessageBits(s)[k] == MessageBits(t)[k]
    requires poly[31]
    ensures Checksum(s, poly) != Checksum(t, poly)
  {
    var m, n := MessageBits(s), MessageBits(t);
    if m == n {
      MessageBitsDetermine(s, t);
    }
    DifferenceLeavesTrace(m, n, from, poly);
    UndetectedExactly(s, t, poly);
  }

  lemma DifferenceLeavesTrace(m: seq<bool>, n: seq<bool>, from: nat, poly: word)
    requires |m| == |n| && m != n && from + 32 <= |m| && poly[31]
    requires forall k :: 0 <= k < |m| && !(from <= k < from + 32) ==> m[k] == n[k]
    ensures Serial(Zeros(32), Xor(m, n), poly) != Zeros(32)
  {
    DifferenceIsBurst(m, n, from);
    BurstLeavesTrace(from, Xor(m, n)[from..from + 32], |m| - from - 32, poly);
  }

  lemma DifferenceIsBurst(m: seq<bool>, n: seq<bool>, from: nat)
    requires |m| == |n| && m != n && from + 32 <= |m|
    requires forall k :: 0 <= k < |m| && !(from <= k < from + 32) ==> m[k] == n[k]
    ensures Xor(m, n) == Zeros(from) + (Xor(m, n)[from..from + 32] + Zeros(|m| - from - 32))
    ensures Xor(m, n)[from..from + 32] != Zeros(32)
  {
    var k :| 0 <= k < |m| && m[k] != n[k];
    assert Xor(m, n)[from..from + 32][k - from];
  }

  lemma BurstLeavesTrace(before: nat, burst: word, after: nat, poly: word)
    requires burst != Zeros(32) && poly[31]
    ensures Serial(Zeros(32), Zeros(before) + (burst + Zeros(after)), poly) != Zeros(32)
  {
    SerialAppend(Zeros(32), Zeros(before), burst + Zeros(after), poly);
    ZeroMessageSteps(Zeros(32), before, poly);
    ZeroRegisterStays(poly, before);
    SerialAppend(Zeros(32), burst, Zeros(after), poly);
    SerialIsBatched(Zeros(32), burst, poly);
    assert Xor(Zeros(32), burst + Zeros(0)) == burst;
    StepsKeepNonZero(burst, poly, 32);
    ZeroMessageSteps(Steps(burst, poly, 32), after, poly);
    StepsKeepNonZero(Steps(burst, poly, 32), poly, after);
  }

  lemma {:induction false} MessageBitsDetermine(s: seq<byte>, t: seq<byte>)
    requires |s| == |t|
    requires MessageBits(s) == MessageBits(t)
    ensures s == t
  {
    if s == [] {
    } else {
      assert MessageBits(s)[..8] == Bits(s[0], 8) && MessageBits(s)[8..] == MessageBits(s[1..]);
      assert MessageBits(t)[..8] == Bits(t[0], 8) && MessageBits(t)[8..] == MessageBits(t[1..]);
      ByteOfBits(s[0]);
      ByteOfBits(t[0]);
      MessageBitsDetermine(s[1..], t[1..]);
      assert s == [s[0]] + s[1..] && t == [t[0]] + t[1..];
    }
  }
}
