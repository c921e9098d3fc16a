/** The checksum against its definition by complements, as in section 8.1.1.6.2 of ITU-T V.42,
    which RFC 1952 refers to, and against the published check value. */
module CheckValue {
  import opened Bytes
  import opened Crc
  import opened PacketTools

  // ---- The preset and the final inversion ----

  // The message with its first four bytes complemented.
  function Complemented(data: seq<byte>): (r: seq<byte>)
    requires |data| >= 4
    ensures |r| == |data| && forall i :: 0 <= i < |data| ==> r[i] == if i < 4 then 255 - data[i] else data[i]
  {
    seq(|data|, i requires 0 <= i < |data| => if i < 4 then 255 - data[i] else data[i])
  }

  lemma {:induction false} ComplementBits(n: nat, width: nat, k: nat)
    requires n < Pow(2, width) && k < width
    ensures Bits(Pow(2, width) - 1 - n, width)[k] == !Bits(n, width)[k]
    decreases width
  {
    var m: nat := Pow(2, width) - 1 - n;
    assert m % 2 != n % 2 && m / 2 == Pow(2, width - 1) - 1 - n / 2 by {
      Halves(n, Pow(2, width - 1));
    }
    if k > 0 {
      ComplementBits(n / 2, width - 1, k - 1);
    }
  }

  lemma Halves(n: nat, p: nat)
    requires n < 2 * p
    ensures (2 * p - 1 - n) % 2 != n % 2 && (2 * p - 1 - n) / 2 == p - 1 - n / 2 && n / 2 < p
  {
  }

  lemma ByteComplement(b: byte, j: nat)
    requires j < 8
    ensures Bits(255 - b, 8)[j] == !Bits(b, 8)[j]
  {
    hide Bits;
    Pow2Table();
    ComplementBits(b, 8, j);
  }

  lemma ComplementedBit(data: seq<byte>, k: nat)
    requires |data| >= 4 && k < 8 * |data|
    ensures MessageBits(Complemented(data))[k] == (MessageBits(data)[k] != (k < 32))
  {
    hide MessageBits, Bits;
    var i, j := k / 8, k % 8;
    assert k == 8 * i + j && (i < 4 <==> k < 32);
    MessageBitAt(data, i, j);
    MessageBitAt(Complemented(data), i, j);
    if i < 4 {
      ByteComplement(data[i], j);
    }
  }

  // A register of ones is a register of zeros that was fed the first 32 bits complemented.
  lemma PresetIsComplement(m: seq<bool>, n: seq<bool>, ones: word, poly: word)
    requires |m| == |n| >= 32 && (forall k :: 0 <= k < |m| ==> n[k] == (m[k] != (k < 32)))
    requires forall k :: 0 <= k < 32 ==> ones[k]
    ensures Serial(ones, m, poly) == Serial(Zeros(32), n, poly)
  {
    hide Serial, Steps;
    assert m == m[..32] + m[32..] && n == n[..32] + n[32..];
    SerialAppend(ones, m[..32], m[32..], poly);
    SerialAppend(Zeros(32), n[..32], n[32..], poly);
    SerialIsBatched(ones, m[..32], poly);
    SerialIsBatched(Zeros(32), n[..32], poly);
    assert Xor(ones, m[..32] + Zeros(0)) == Xor(Zeros(32), n[..32] + Zeros(0));
    assert m[32..] == n[32..];
  }

  // The checksum of at least four bytes is the complement of the plain remainder of the message
  // with its first four bytes complemented, for every polynomial.
  lemma ChecksumByComplements(data: seq<byte>, poly: word, i: nat)
    requires |data| >= 4 && i < 32
    ensures Checksum(data, poly)[i] == !Serial(Zeros(32), MessageBits(Complemented(data)), poly)[i]
  {
    forall k | 0 <= k < 8 * |data|
      ensures MessageBits(Complemented(data))[k] == (MessageBits(data)[k] != (k < 32))
    {
      ComplementedBit(data, k);
    }
    PresetIsComplement(MessageBits(data), MessageBits(Complemented(data)), Ones(), poly);
  }

  // ---- The check value ----

  predicate Odd(b: bv32) {
    b & 1 == 1
  }

  function Half(b: bv32): bv32 {
    b >> 1
  }

  // The low bits of a machine word, least significant first.
  function BitsOf(b: bv32, width: nat): (s: seq<bool>)
    ensures |s| == width
    decreases width
  {
    if width == 0 then [] else [Odd(b)] + BitsOf(Half(b), width - 1)
  }

  predicate IsXor(a: bv32, b: bv32, c: bv32) {
    c == a ^ b
  }

  lemma XorOfBits(a: bv32, b: bv32, c: bv32)
    requires IsXor(a, b, c)
    ensures Odd(c) == (Odd(a) != Odd(b)) && IsXor(Half(a), Half(b), Half(c))
  {
  }

  lemma XorCons(x: bool, y: bool, s: seq<bool>, t: seq<bool>)
    requires |s| == |t|
    ensures Xor([x] + s, [y] + t) == [x != y] + Xor(s, t)
  {
  }

  lemma {:induction false} XorOnWords(a: bv32, b: bv32, c: bv32, width: nat)
    requires IsXor(a, b, c)
    ensures BitsOf(c, width) == Xor(BitsOf(a, width), BitsOf(b, width))
    decreases width
  {
    hide IsXor, Odd, Half;
    if width == 0 {
    } else {
      XorOfBits(a, b, c);
      XorOnWords(Half(a), Half(b), Half(c), width - 1);
      XorCons(Odd(a), Odd(b), BitsOf(Half(a), width - 1), BitsOf(Half(b), width - 1));
    }
  }

  // Whether nothing is left above the low bits.
  predicate Short(b: bv32, width: nat)
    decreases width
  {
    if width == 0 then b == 0 else Short(Half(b), width - 1)
  }

  lemma {:induction false} ShortWords(b: bv32, width: nat)
    requires Short(b, width)
    ensures BitsOf(b, width + 1) == BitsOf(b, width) + [false]
    decreases width
  {
    if width == 0 {
      assert !Odd(b);
    } else {
      hide Odd, Half;
      ShortWords(Half(b), width - 1);
    }
  }

  function Sixteenth(b: bv32): bv32 {
    Half(Half(Half(Half(b))))
  }

  lemma ShortFour(b: bv32, width: nat)
    requires Short(Sixteenth(b), width)
    ensures Short(b, width + 4)
  {
    hide Half;
    assert Short(Half(Half(Half(b))), width + 1);
    assert Short(Half(Half(b)), width + 2);
  }

  lemma ShortThree(b: bv32)
    requires Half(Half(Half(b))) == 0
    ensures Short(b, 3)
  {
    hide Half;
    assert Short(Half(Half(Half(b))), 0);
    assert Short(Half(Half(b)), 1);
    assert Short(Half(b), 2);
  }

  lemma AllShiftedOut(b: bv32, c: bv32)
    requires c == Sixteenth(Sixteenth(Sixteenth(Sixteenth(Sixteenth(Sixteenth(Sixteenth(Half(b))))))))
    ensures Half(Half(Half(c))) == 0
  {
  }

  lemma ShiftedIsShort(b: bv32)
    ensures Short(Half(b), 31)
  {
    hide Half, Short, Sixteenth;
    var b0 := Half(b);
    var b4 := Sixteenth(b0);
    var b8 := Sixteenth(b4);
    var b12 := Sixteenth(b8);
    var b16 := Sixteenth(b12);
    var b20 := Sixteenth(b16);
    var b24 := Sixteenth(b20);
    var b28 := Sixteenth(b24);
    AllShiftedOut(b, b28);
    ShortThree(b28);
    ShortFour(b24, 3);
    ShortFour(b20, 7);
    ShortFour(b16, 11);
    ShortFour(b12, 15);
    ShortFour(b8, 19);
    ShortFour(b4, 23);
    ShortFour(b0, 27);
  }

  lemma TailOnWords(b: bv32, width: nat)
    requires width > 0
    ensures BitsOf(b, width)[0] == Odd(b) && BitsOf(b, width)[1..] == BitsOf(Half(b), width - 1)
  {
    hide Odd, Half;
  }

  lemma ShiftOnWords(b: bv32)
    ensures BitsOf(Half(b), 32) == ShiftRight(BitsOf(b, 32), 1)
  {
    hide BitsOf, Half, Odd, Short;
    ShiftedIsShort(b);
    ShortWords(Half(b), 31);
    TailOnWords(b, 32);
    assert Zeros(1) == [false];
  }

  function StepOn(b: bv32): bv32 {
    if Odd(b) then Half(b) ^ 0xEDB88320 else Half(b)
  }

  function EightSteps(b: bv32): bv32 {
    StepOn(StepOn(StepOn(StepOn(StepOn(StepOn(StepOn(StepOn(b))))))))
  }

  lemma StepOnWords(b: bv32)
    ensures BitsOf(StepOn(b), 32) == Step(BitsOf(b, 32), Poly())
  {
    PolyWord();
    hide BitsOf, Poly, Odd, Half;
    ShiftOnWords(b);
    TailOnWords(b, 32);
    XorOnWords(Half(b), 0xEDB88320, Half(b) ^ 0xEDB88320, 32);
  }

  lemma EightOnWords(b: bv32)
    ensures BitsOf(EightSteps(b), 32) == Steps(BitsOf(b, 32), Poly(), 8)
  {
    hide BitsOf, Poly, StepOn, Step, Steps;
    var b1 := StepOn(b);
    var b2 := StepOn(b1);
    var b3 := StepOn(b2);
    var b4 := StepOn(b3);
    TwoOnWords(b, 6);
    TwoOnWords(b2, 4);
    TwoOnWords(b4, 2);
    TwoOnWords(StepOn(StepOn(b4)), 0);
    StepsNone(BitsOf(EightSteps(b), 32));
  }

  lemma StepsNone(c: word)
    ensures Steps(c, Poly(), 0) == c
  {
  }

  lemma TwoOnWords(b: bv32, k: nat)
    ensures Steps(BitsOf(b, 32), Poly(), k + 2) == Steps(BitsOf(StepOn(StepOn(b)), 32), Poly(), k)
  {
    hide BitsOf, Poly, StepOn, Step;
    StepOnWords(b);
    StepOnWords(StepOn(b));
    var c := BitsOf(b, 32);
    assert Steps(c, Poly(), k + 2) == Steps(Step(c, Poly()), Poly(), k + 1);
  }

  // A hexadecimal digit of a number, and of a machine word.
  lemma Digit(n: nat, b: bv32, width: nat)
    requires Bits(n / 16, width) == BitsOf(Sixteenth(b), width)
    requires (n % 2 == 1) == Odd(b) && (n / 2 % 2 == 1) == Odd(Half(b))
    requires (n / 4 % 2 == 1) == Odd(Half(Half(b))) && (n / 8 % 2 == 1) == Odd(Half(Half(Half(b))))
    ensures Bits(n, width + 4) == BitsOf(b, width + 4)
  {
    hide Odd, Half;
    assert n / 2 / 2 == n / 4 && n / 4 / 2 == n / 8 && n / 8 / 2 == n / 16;
    assert Bits(n / 8, width + 1) == BitsOf(Half(Half(Half(b))), width + 1);
    assert Bits(n / 4, width + 2) == BitsOf(Half(Half(b)), width + 2);
    assert Bits(n / 2, width + 3) == BitsOf(Half(b), width + 3);
  }

  lemma PolyWord()
    ensures Poly() == BitsOf(0xEDB88320, 32)
  {
    hide Bits, BitsOf;
    NoBits();
    Digit(0xE, 0xE, 0);
    Digit(0xED, 0xED, 4);
    Digit(0xEDB, 0xEDB, 8);
    Digit(0xEDB8, 0xEDB8, 12);
    Digit(0xEDB88, 0xEDB88, 16);
    Digit(0xEDB883, 0xEDB883, 20);
    Digit(0xEDB8832, 0xEDB8832, 24);
    Digit(0xEDB88320, 0xEDB88320, 28);
  }

  lemma NoBits()
    ensures Bits(0, 0) == BitsOf(0, 0)
  {
  }

  // ---- Feeding the register with bytes ----

  lemma ByteWidens(b: byte)
    ensures Bits(b, 32) == Bits(b, 8) + Zeros(24)
  {
    ByteOfBits(b);
    hide Value;
    BitsOfValue(Bits(b, 8), 24);
  }

  // One byte, given as a number and as a machine word.
  lemma FeedByte(c: bv32, b: byte, v: bv32)
    requires Bits(b, 32) == BitsOf(v, 32)
    ensures Serial(BitsOf(c, 32), Bits(b, 8), Poly()) == BitsOf(EightSteps(c ^ v), 32)
  {
    hide Serial, Steps, Bits, BitsOf, EightSteps, Poly;
    SerialIsBatched(BitsOf(c, 32), Bits(b, 8), Poly());
    ByteWidens(b);
    assert IsXor(c, v, c ^ v);
    XorOnWords(c, v, c ^ v, 32);
    EightOnWords(c ^ v);
  }

  function Register(c: bv32, vs: seq<bv32>): bv32
    decreases |vs|
  {
    if vs == [] then c else Register(EightSteps(c ^ vs[0]), vs[1..])
  }

  lemma {:induction false} RegisterIsSerial(c: bv32, data: seq<byte>, vs: seq<bv32>)
    requires |data| == |vs| && forall i :: 0 <= i < |data| ==> Bits(data[i], 32) == BitsOf(vs[i], 32)
    ensures Serial(BitsOf(c, 32), MessageBits(data), Poly()) == BitsOf(Register(c, vs), 32)
    decreases |data|
  {
    hide Bits, BitsOf, EightSteps, Poly;
    if data == [] {
    } else {
      FeedByte(c, data[0], vs[0]);
      hide Serial;
      SerialAppend(BitsOf(c, 32), Bits(data[0], 8), MessageBits(data[1..]), Poly());
      RegisterIsSerial(EightSteps(c ^ vs[0]), data[1..], vs[1..]);
    }
  }

  lemma {:induction false} NoBitsWide(width: nat)
    ensures Bits(0, width) == BitsOf(0, width)
    decreases width
  {
    if width == 0 {
    } else {
      NoBitsWide(width - 1);
      assert Half(0) == 0 && !Odd(0);
    }
  }

  // The characters of the digits 1 to 9, as numbers and as machine words.
  function Digits(): seq<byte> {
    [0x31, 0x32, 0x33, 0x34, 0x35, 0x36, 0x37, 0x38, 0x39]
  }

  function DigitWords(): seq<bv32> {
    [0x31, 0x32, 0x33, 0x34, 0x35, 0x36, 0x37, 0x38, 0x39]
  }

  lemma DigitsAreWords()
    ensures forall i :: 0 <= i < |Digits()| ==> Bits(Digits()[i], 32) == BitsOf(DigitWords()[i], 32)
  {
    hide Bits, BitsOf;
    NoBitsWide(24);
    Digit(0x3, 0x3, 24);
    Digit(0x31, 0x31, 28);
    Digit(0x32, 0x32, 28);
    Digit(0x33, 0x33, 28);
    Digit(0x34, 0x34, 28);
    Digit(0x35, 0x35, 28);
    Digit(0x36, 0x36, 28);
    Digit(0x37, 0x37, 28);
    Digit(0x38, 0x38, 28);
    Digit(0x39, 0x39, 28);
  }

  lemma DigitsRegister()
    ensures Register(0xFFFF_FFFF, DigitWords()) == 0x340BC6D9
  {
    var d := DigitWords();
    assert d[1..][1..] == d[2..] && d[2..][1..] == d[3..] && d[3..][1..] == d[4..] && d[4..][1..] == d[5..];
    assert d[5..][1..] == d[6..] && d[6..][1..] == d[7..] && d[7..][1..] == d[8..] && d[8..][1..] == [];
    DigitSteps();
    hide EightSteps;
    assert Register(0x340BC6D9, []) == 0x340BC6D9;
    assert Register(0x651F2550, d[8..]) == 0x340BC6D9;
    assert Register(0xAFFC9660, d[7..]) == 0x340BC6D9;
    assert Register(0xF68D2C9E, d[6..]) == 0x340BC6D9;
    assert Register(0x340AC5E3, d[5..]) == 0x340BC6D9;
    assert Register(0x641C1F5C, d[4..]) == 0x340BC6D9;
    assert Register(0x77B79C2D, d[3..]) == 0x340BC6D9;
    assert Register(0xB0ACBB32, d[2..]) == 0x340BC6D9;
    assert Register(0x7C231048, d[1..]) == 0x340BC6D9;
  }

  lemma DigitSteps()
    ensures EightSteps(0xFFFF_FFFF ^ 0x31) == 0x7C231048 && EightSteps(0x7C231048 ^ 0x32) == 0xB0ACBB32
    ensures EightSteps(0xB0ACBB32 ^ 0x33) == 0x77B79C2D && EightSteps(0x77B79C2D ^ 0x34) == 0x641C1F5C
    ensures EightSteps(0x641C1F5C ^ 0x35) == 0x340AC5E3 && EightSteps(0x340AC5E3 ^ 0x36) == 0xF68D2C9E
    ensures EightSteps(0xF68D2C9E ^ 0x37) == 0xAFFC9660 && EightSteps(0xAFFC9660 ^ 0x38) == 0x651F2550
    ensures EightSteps(0x651F2550 ^ 0x39) == 0x340BC6D9
  {
  }

  lemma OnesWord()
    ensures BitsOf(0xFFFF_FFFF, 32) == Ones()
  {
    hide BitsOf;
    NoBits();
    OnesDigit(0xF, 0);
    OnesDigit(0xFF, 4);
    OnesDigit(0xFFF, 8);
    OnesDigit(0xFFFF, 12);
    OnesDigit(0xF_FFFF, 16);
    OnesDigit(0xFF_FFFF, 20);
    OnesDigit(0xFFF_FFFF, 24);
    OnesDigit(0xFFFF_FFFF, 28);
  }

  ghost predicate AllSet(s: seq<bool>) {
    forall k :: 0 <= k < |s| ==> s[k]
  }

  lemma OnesDigit(b: bv32, width: nat)
    requires Odd(b) && Odd(Half(b)) && Odd(Half(Half(b))) && Odd(Half(Half(Half(b))))
    requires AllSet(BitsOf(Sixteenth(b), width))
    ensures AllSet(BitsOf(b, width + 4))
  {
    hide Odd, Half;
    assert BitsOf(Half(Half(Half(b))), width + 1) == [true] + BitsOf(Sixteenth(b), width);
    assert BitsOf(Half(Half(b)), width + 2) == [true] + BitsOf(Half(Half(Half(b))), width + 1);
    assert BitsOf(Half(b), width + 3) == [true] + BitsOf(Half(Half(b)), width + 2);
    assert BitsOf(b, width + 4) == [true] + BitsOf(Half(b), width + 3);
  }

  lemma ResultWord()
    ensures Bits(0xCBF4_3926, 32) == BitsOf(0xCBF4_3926, 32)
  {
    hide Bits, BitsOf;
    NoBits();
    Digit(0xC, 0xC, 0);
    Digit(0xCB, 0xCB, 4);
    Digit(0xCBF, 0xCBF, 8);
    Digit(0xCBF4, 0xCBF4, 12);
    Digit(0xC_BF43, 0xC_BF43, 16);
    Digit(0xCB_F439, 0xCB_F439, 20);
    Digit(0xCBF_4392, 0xCBF_4392, 24);
    Digit(0xCBF4_3926, 0xCBF4_3926, 28);
  }

  // The published check value: the checksum of the characters "123456789" is CBF43926.
  lemma ChecksumOfDigits()
    ensures Checksum(Digits(), Poly()) == Bits(0xCBF4_3926, 32)
  {
    hide Bits, BitsOf, Register, Poly, MessageBits, Serial, EightSteps, Ones;
    DigitsAreWords();
    RegisterIsSerial(0xFFFF_FFFF, Digits(), DigitWords());
    DigitsRegister();
    OnesWord();
    assert IsXor(0x340B_C6D9, 0xFFFF_FFFF, 0xCBF4_3926);
    XorOnWords(0x340B_C6D9, 0xFFFF_FFFF, 0xCBF4_3926, 32);
    ResultWord();
  }

  // ---- The field in the packet ----

  lemma {:induction false} ValueSplit(s: seq<bool>, t: seq<bool>)
    ensures Value(s + t) == Value(s) + Pow(2, |s|) * Value(t)
  {
    if s == [] {
      assert s + t == t;
    } else {
      assert (s + t)[1..] == s[1..] + t;
      ValueSplit(s[1..], t);
      MulAssociates(2, Pow(2, |s| - 1), Value(t));
    }
  }

  // A word is stored with its least significant byte first.
  lemma WordBytesAreLe(w: word)
    ensures FromLe(WordBytes(w)) == Value(w)
  {
    var a, b, c, d := w[..8], w[8..16], w[16..24], w[24..];
    Pow2Table();
    hide Value, Pow;
    assert w == a + (b + (c + d));
    ValueSplit(a, b + (c + d));
    ValueSplit(b, c + d);
    ValueSplit(c, d);
    var s := WordBytes(w);
    assert s[0] == Value(a) && s[1] == Value(b) && s[2] == Value(c) && s[3] == Value(d);
    hide WordBytes, FromLe;
    LeOfFour(s);
  }

  lemma LeOfFour(s: seq<byte>)
    requires |s| == 4
    ensures FromLe(s) == s[0] as int + 256 * (s[1] as int + 256 * (s[2] as int + 256 * (s[3] as int)))
  {
    assert s[1..][1..] == s[2..] && s[2..][1..] == s[3..] && s[3..][1..] == [];
    assert FromLe(s[3..]) == s[3] && FromLe(s[2..]) == s[2] as int + 256 * FromLe(s[3..]);
  }

  // A sealed packet holds, in its field, the checksum of the packet with that field zero; and a
  // packet passes the check exactly when it does. q is the packet with the field zero.
  lemma SealHoldsChecksum(p: seq<byte>, q: seq<byte>, offset: nat)
    requires offset + 4 <= |p| == |q|
    requires forall k :: 0 <= k < |p| ==> q[k] == if offset <= k < offset + 4 then 0 else p[k]
    ensures FieldAt(Seal(p, offset), offset, 4) == Value(Checksum(q, Poly()))
    ensures Accepts(p, offset) <==> FieldAt(p, offset, 4) == Value(Checksum(q, Poly()))
  {
    hide Checksum, Poly, Value, FromLe, WordBytes;
    assert Blank(p, offset) == q;
    WordBytesAreLe(Checksum(q, Poly()));
    WritesWhatWasRead(p[offset..offset + 4]);
    WritesWhatWasRead(Sum(p, offset));
  }
}
