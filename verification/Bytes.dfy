/** Bytes, their bits, and the little-endian readers and writers of toolbox.c. */
module Bytes {

  type byte = b: int | 0 <= b < 256

  // The number of values a field of the given width in digits of the given base can hold.
  function Pow(base: nat, width: nat): (p: nat)
    requires base > 0
    ensures p > 0
  {
    if width == 0 then 1 else base * Pow(base, width - 1)
  }

  lemma {:induction false} MulStrict(m: int, a: int, b: int)
    requires m > 0 && a < b
    ensures m * a + m <= m * b
    decreases m
  {
    if m > 1 {
      MulStrict(m - 1, a, b);
      assert m * a == (m - 1) * a + a && m * b == (m - 1) * b + b;
    }
  }

  lemma QuotientUnique(n: int, m: int, q: int, r: int)
    requires 0 <= r < m
    requires n == m * q + r
    ensures n / m == q && n % m == r
  {
    var q' := n / m;
    assert n == m * q' + n % m;
    if q > q' {
      MulStrict(m, q', q);
    } else if q < q' {
      MulStrict(m, q, q');
    }
  }

  lemma MulAssociates(a: int, b: int, c: int)
    ensures a * (b * c) == (a * b) * c
  {
  }

  lemma ModuloSplit(n: nat, base: nat, p: nat)
    requires base > 0 && p > 0
    ensures base * p > 0
    ensures n / (base * p) == (n / base) / p
    ensures n % (base * p) == n % base + base * ((n / base) % p)
  {
    var q, r := n / base, n % base;
    var d, m := q / p, q % p;
    assert base * q == base * (p * d) + base * m by {
      assert q == p * d + m;
    }
    MulAssociates(base, p, d);
    MulStrict(base, m, p);
    assert base * m >= 0;
    QuotientUnique(n, base * p, d, base * m + r);
  }

  // ---- Little-endian integers ----

  // The low-order bytes of n, least significant first.
  function ToLe(n: nat, width: nat): (s: seq<byte>)
    ensures |s| == width
    decreases width, n
  {
    if width == 0 then [] else [n % 256] + ToLe(n / 256, width - 1)
  }

  function FromLe(s: seq<byte>): nat {
    if s == [] then 0 else s[0] + 256 * FromLe(s[1..])
  }

  // Reading back what was written yields the value cut to the width of the field.
  lemma {:induction false} ReadsWhatWasWritten(n: nat, width: nat)
    ensures FromLe(ToLe(n, width)) == n % Pow(256, width)
    decreases width
  {
    if width == 0 {
    } else {
      ReadsWhatWasWritten(n / 256, width - 1);
      assert ToLe(n, width)[1..] == ToLe(n / 256, width - 1);
      ModuloSplit(n, 256, Pow(256, width - 1));
    }
  }

  // Every byte string is the encoding of the number it denotes.
  lemma {:induction false} WritesWhatWasRead(s: seq<byte>)
    ensures FromLe(s) < Pow(256, |s|)
    ensures ToLe(FromLe(s), |s|) == s
  {
    if s == [] {
    } else {
      WritesWhatWasRead(s[1..]);
      QuotientUnique(FromLe(s), 256, FromLe(s[1..]), s[0]);
    }
  }

  // The least significant byte comes first.
  lemma {:induction false} LittleEndian(n: nat, width: nat, k: nat)
    requires k < width
    ensures ToLe(n, width)[k] == n / Pow(256, k) % 256
    decreases k
  {
    if k == 0 {
    } else {
      LittleEndian(n / 256, width - 1, k - 1);
      ModuloSplit(n, 256, Pow(256, k - 1));
    }
  }

  // The field of the given width at an offset of a block.
  function FieldAt(s: seq<byte>, at: nat, width: nat): nat
    requires at + width <= |s|
  {
    FromLe(s[at..at + width])
  }

  // The buffer after a block has been written over it at an offset.
  function Overwrite<T>(s: seq<T>, at: nat, block: seq<T>): (r: seq<T>)
    requires at + |block| <= |s|
    ensures |r| == |s|
    ensures r[at..at + |block|] == block
    ensures forall k :: 0 <= k < |s| && !(at <= k < at + |block|) ==> r[k] == s[k]
  {
    s[..at] + block + s[at + |block|..]
  }

  // A field reads back as the number written into it, and disjoint fields keep their value.
  lemma FieldWritten(s: seq<byte>, at: nat, n: nat, width: nat)
    requires at + width <= |s| && n < Pow(256, width)
    ensures FieldAt(Overwrite(s, at, ToLe(n, width)), at, width) == n
  {
    ReadsWhatWasWritten(n, width);
  }

  lemma FieldKept(s: seq<byte>, at: nat, block: seq<byte>, other: nat, width: nat)
    requires at + |block| <= |s| && other + width <= |s|
    requires other + width <= at || at + |block| <= other
    ensures FieldAt(Overwrite(s, at, block), other, width) == FieldAt(s, other, width)
  {
    assert Overwrite(s, at, block)[other..other + width] == s[other..other + width];
  }

  lemma FieldDetermines(s: seq<byte>, t: seq<byte>, at: nat, width: nat)
    requires at + width <= |s| && at + width <= |t| && FieldAt(s, at, width) == FieldAt(t, at, width)
    ensures s[at..at + width] == t[at..at + width]
    ensures forall k :: at <= k < at + width ==> s[k] == t[k]
  {
    WritesWhatWasRead(s[at..at + width]);
    WritesWhatWasRead(t[at..at + width]);
    forall k | at <= k < at + width ensures s[k] == t[k] {
      assert s[at..at + width][k - at] == t[at..at + width][k - at];
    }
  }

  // wu8 / wu16 / wu32 / wu64: store an integer of the given width and advance the cursor.
  method WriteLe(data: array<byte>, at: nat, n: nat, width: nat) returns (next: nat)
    requires at + width <= data.Length
    modifies data
    ensures data[..] == Overwrite(old(data[..]), at, ToLe(n, width))
    ensures next == at + width
  {
    next := at;
    var left := n;
    while next < at + width
      invariant at <= next <= at + width
      invariant ToLe(n, width) == data[at..next] + ToLe(left, at + width - next)
      invariant data[..at] == old(data[..at])
      invariant data[at + width..] == old(data[at + width..])
    {
      ghost var before := data[at..next];
      data[next] := left % 256;
      left := left / 256;
      next := next + 1;
      assert data[at..next] == before + [data[next - 1]];
    }
    assert data[..] == data[..at] + data[at..next] + data[next..];
  }

  // ru8 / ru16 / ru32 / ru64: load an integer of the given width and advance the cursor.
  method ReadLe(data: array<byte>, at: nat, width: nat) returns (n: nat, next: nat)
    requires at + width <= data.Length
    ensures n == FieldAt(data[..], at, width)
    ensures next == at + width
  {
    n, next := 0, at + width;
    while next > at
      invariant at <= next <= at + width
      invariant n == FromLe(data[next..at + width])
    {
      next := next - 1;
      assert data[next..at + width][1..] == data[next + 1..at + width];
      n := data[next] + 256 * n;
    }
    assert data[..][at..at + width] == data[at..at + width];
    next := at + width;
  }

  // ---- Bits ----

  // The low bits of n, least significant first.
  function Bits(n: nat, width: nat): (s: seq<bool>)
    ensures |s| == width
    decreases width, n
  {
    if width == 0 then [] else [n % 2 == 1] + Bits(n / 2, width - 1)
  }

  function Value(s: seq<bool>): nat {
    if s == [] then 0 else (if s[0] then 1 else 0) + 2 * Value(s[1..])
  }

  function Zeros(n: nat): (s: seq<bool>)
    ensures |s| == n && forall i :: 0 <= i < n ==> !s[i]
  {
    seq(n, _ => false)
  }

  lemma {:induction false} ValueBound(s: seq<bool>)
    ensures Value(s) < Pow(2, |s|)
  {
    if s == [] {
    } else {
      ValueBound(s[1..]);
    }
  }

  lemma {:induction false} ValueOfBits(n: nat, width: nat)
    ensures Value(Bits(n, width)) == n % Pow(2, width)
    decreases width
  {
    if width == 0 {
    } else {
      ValueOfBits(n / 2, width - 1);
      assert Bits(n, width)[1..] == Bits(n / 2, width - 1);
      ModuloSplit(n, 2, Pow(2, width - 1));
    }
  }

  lemma {:induction false} BitsOfZero(width: nat)
    ensures Bits(0, width) == Zeros(width)
  {
    if width == 0 {
    } else {
      BitsOfZero(width - 1);
      assert Zeros(width) == [false] + Zeros(width - 1);
    }
  }

  // Widening a number fills in zero bits.
  lemma {:induction false} BitsOfValue(s: seq<bool>, more: nat)
    ensures Bits(Value(s), |s| + more) == s + Zeros(more)
  {
    if s == [] {
      BitsOfZero(more);
      assert s + Zeros(more) == Zeros(more);
    } else {
      BitsOfValue(s[1..], more);
      hide Zeros;
      assert Value(s) / 2 == Value(s[1..]);
      assert s + Zeros(more) == [s[0]] + (s[1..] + Zeros(more));
    }
  }

  // Bit k of a number is the parity of its quotient by two to the k.
  lemma {:induction false} BitAt(n: nat, width: nat, k: nat)
    requires k < width
    ensures Bits(n, width)[k] == (n / Pow(2, k) % 2 == 1)
    decreases k
  {
    if k == 0 {
    } else {
      BitAt(n / 2, width - 1, k - 1);
      ModuloSplit(n, 2, Pow(2, k - 1));
    }
  }

  lemma Pow2Table()
    ensures Pow(2, 8) == 256
    ensures Pow(2, 31) == 0x8000_0000
  {
    assert Pow(2, 4) == 16;
    assert Pow(2, 12) == 0x1000;
    assert Pow(2, 16) == 0x1_0000;
    assert Pow(2, 20) == 0x10_0000;
    assert Pow(2, 24) == 0x100_0000;
    assert Pow(2, 28) == 0x1000_0000;
  }

  // A byte is determined by its eight bits.
  lemma ByteOfBits(b: byte)
    ensures Value(Bits(b, 8)) == b
  {
    ValueOfBits(b, 8);
    Pow2Table();
  }

  function ByteFrom(s: seq<bool>): byte
    requires |s| == 8
  {
    ValueBound(s);
    Pow2Table();
    Value(s)
  }
}
