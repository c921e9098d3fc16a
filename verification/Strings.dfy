/** C strings inside buffers: strndup, strcpy, and the fixed-size string fields of toolbox.c. */
module Strings {
  import opened Wrappers
  import opened Bytes

  const SIZE_VALUES: nat := 0x1_0000_0000_0000_0000

  // A signed length passed where a size is expected.
  function AsSize(n: int): nat
    requires n + SIZE_VALUES >= 0
  {
    if n >= 0 then n else n + SIZE_VALUES
  }

  // A number stored in a signed char.
  function AsChar(n: nat): (c: int)
    ensures -128 <= c < 128
  {
    if n % 256 < 128 then n % 256 else n % 256 - 256
  }

  predicate NulFree(s: seq<byte>) {
    0 !in s
  }

  // How many bytes a copy of at most n bytes takes from offset `at`. Nothing is known of the
  // memory past the block: a read there has no result.
  function Scan(s: seq<byte>, at: nat, n: nat): (k: Option<nat>)
    requires at <= |s|
    ensures k.Some? ==> at + k.value <= |s| && k.value <= n
    decreases |s| - at
  {
    if n == 0 then Some(0)
    else if at == |s| then None
    else if s[at] == 0 then Some(0)
    else
      var more := Scan(s, at + 1, n - 1);
      if more.Some? then Some(more.value + 1) else None
  }

  ghost predicate StopsAt(s: seq<byte>, at: nat, n: nat, k: nat) {
    && k <= n && at + k <= |s|
    && (forall j :: at <= j < at + k ==> s[j] != 0)
    && (k < n ==> at + k < |s| && s[at + k] == 0)
  }

  // The copy ends at the first NUL or at the bound, whichever comes first.
  lemma {:induction false} ScanExactly(s: seq<byte>, at: nat, n: nat, k: nat)
    requires at <= |s|
    ensures Scan(s, at, n) == Some(k) <==> StopsAt(s, at, n, k)
    decreases |s| - at
  {
    if n > 0 && at < |s| && s[at] != 0 && k > 0 {
      ScanExactly(s, at + 1, n - 1, k - 1);
    }
  }

  // Reading stays inside the block exactly when the bound does or a NUL is left.
  lemma {:induction false} OverrunsExactly(s: seq<byte>, at: nat, n: nat)
    requires at <= |s|
    ensures Scan(s, at, n) == None <==> at + n > |s| && NulFree(s[at..])
    decreases |s| - at
  {
    if n > 0 && at < |s| && s[at] != 0 {
      OverrunsExactly(s, at + 1, n - 1);
      assert s[at..] == [s[at]] + s[at + 1..];
    }
  }

  // What strndup returns.
  function Dup(s: seq<byte>, at: nat, n: nat): (r: Option<seq<byte>>)
    requires at <= |s|
    ensures r.Some? ==> at + |r.value| <= |s| && |r.value| <= n
  {
    var k := Scan(s, at, n);
    if k.Some? then Some(s[at..at + k.value]) else None
  }

  lemma DupIsNulFree(s: seq<byte>, at: nat, n: nat)
    requires at <= |s|
    ensures var r := Dup(s, at, n); r.Some? ==> NulFree(r.value)
  {
    var k := Scan(s, at, n);
    if k.Some? {
      ScanExactly(s, at, n, k.value);
    }
  }

  // strndup
  method Strndup(data: array<byte>, at: nat, n: nat) returns (res: Option<seq<byte>>)
    requires at <= data.Length
    ensures res == Dup(data[..], at, n)
  {
    var i := 0;
    while i < n
      invariant i <= n && at + i <= data.Length
      invariant forall j :: at <= j < at + i ==> data[j] != 0
    {
      if at + i == data.Length {
        OverrunsExactly(data[..], at, n);
        return None;
      }
      if data[at + i] == 0 {
        break;
      }
      i := i + 1;
    }
    ScanExactly(data[..], at, n, i);
    res := Some(data[at..at + i]);
    assert data[at..at + i] == data[..][at..at + i];
  }

  lemma OverwriteTwice<T>(s: seq<T>, at: nat, a: seq<T>, b: seq<T>)
    requires at + |a| + |b| <= |s|
    ensures Overwrite(Overwrite(s, at, a), at + |a|, b) == Overwrite(s, at, a + b)
  {
  }

  // strcpy of a string, its terminator included.
  method Strcpy(data: array<byte>, at: nat, str: seq<byte>) returns (next: nat)
    requires at + |str| + 1 <= data.Length
    modifies data
    ensures data[..] == Overwrite(old(data[..]), at, str + [0])
    ensures next == at + |str| + 1
  {
    forall k | 0 <= k < |str| {
      data[at + k] := str[k];
    }
    data[at + |str|] := 0;
    assert data[..] == Overwrite(old(data[..]), at, str + [0]);
    return at + |str| + 1;
  }

  // ---- Fixed-size fields: one byte of length, then maxLen bytes ----

  function Min(a: int, b: int): int {
    if a < b then a else b
  }

  // What wstaticstring puts into the length byte, read as the char it is.
  function StoredLen(str: seq<byte>, maxLen: nat): int {
    AsChar(Min(maxLen, |str|))
  }

  // The copy stays inside the field exactly when the length survives the char: below 128
  // for every field of at most 255 bytes.
  lemma StaticFitsExactly(str: seq<byte>, maxLen: nat)
    requires maxLen < SIZE_VALUES - 128
    ensures AsSize(StoredLen(str, maxLen)) <= maxLen <==> StoredLen(str, maxLen) >= 0
    ensures maxLen < 256 ==> (StoredLen(str, maxLen) >= 0 <==> Min(maxLen, |str|) < 128)
    ensures maxLen < 256 && StoredLen(str, maxLen) >= 0 ==> StoredLen(str, maxLen) == Min(maxLen, |str|)
  {
  }

  // The bytes wstaticstring writes; the rest of the field keeps what it held.
  function StaticBytes(str: seq<byte>, maxLen: nat): (s: seq<byte>)
    requires StoredLen(str, maxLen) >= 0
    ensures |s| <= 1 + maxLen
  {
    [StoredLen(str, maxLen)] + str[..StoredLen(str, maxLen)]
  }

  // wstaticstring
  method WStaticString(data: array<byte>, at: nat, str: seq<byte>, maxLen: nat) returns (next: nat)
    requires at + 1 + maxLen <= data.Length && StoredLen(str, maxLen) >= 0
    modifies data
    ensures data[..] == Overwrite(old(data[..]), at, StaticBytes(str, maxLen))
    ensures next == at + 1 + maxLen
  {
    var len := AsChar(Min(maxLen, |str|));
    data[at] := len;
    forall k | 0 <= k < len {
      data[at + 1 + k] := str[k];
    }
    assert data[..] == Overwrite(old(data[..]), at, StaticBytes(str, maxLen));
    return at + 1 + maxLen;
  }

  // rstaticstring: the length byte is a signed char here too.
  function ReadStatic(s: seq<byte>, at: nat, maxLen: nat): Option<seq<byte>>
    requires at < |s|
  {
    Dup(s, at + 1, AsSize(Min(maxLen, AsChar(s[at]))))
  }

  method RStaticString(data: array<byte>, at: nat, maxLen: nat) returns (res: Option<seq<byte>>, next: nat)
    requires at < data.Length
    ensures res == ReadStatic(data[..], at, maxLen)
    ensures next == at + 1 + maxLen
  {
    var len := Min(maxLen, AsChar(data[at]));
    res := Strndup(data, at + 1, AsSize(len));
    next := at + 1 + maxLen;
  }

  lemma StoredReadsBack(t: seq<byte>, at: nat, str: seq<byte>, maxLen: nat)
    requires |str| <= maxLen && |str| < 128 && NulFree(str)
    requires at + 1 + |str| <= |t| && t[at] == |str| && t[at + 1..at + 1 + |str|] == str
    ensures ReadStatic(t, at, maxLen) == Some(str)
  {
    assert Min(maxLen, AsChar(t[at])) == |str|;
    forall j | at + 1 <= j < at + 1 + |str| ensures t[j] != 0 {
      assert t[j] == str[j - at - 1];
    }
    ScanExactly(t, at + 1, |str|, |str|);
  }

  // What was written into a field is read back, cut to the field.
  lemma StaticRoundTrip(s: seq<byte>, at: nat, str: seq<byte>, maxLen: nat)
    requires at + 1 + maxLen <= |s| && StoredLen(str, maxLen) >= 0 && NulFree(str)
    ensures ReadStatic(Overwrite(s, at, StaticBytes(str, maxLen)), at, maxLen) == Some(str[..StoredLen(str, maxLen)])
    ensures |str| <= maxLen < 128 ==> str[..StoredLen(str, maxLen)] == str
  {
    hide ReadStatic;
    var len, block := StoredLen(str, maxLen), StaticBytes(str, maxLen);
    var t := Overwrite(s, at, block);
    hide StoredLen;
    assert t[at..at + 1 + len] == block;
    assert t[at] == t[at..at + 1 + len][0] == len;
    assert t[at + 1..at + 1 + len] == t[at..at + 1 + len][1..] == str[..len];
    StoredReadsBack(t, at, str[..len], maxLen);
    if |str| <= maxLen < 128 {
      assert len == |str| by {
        StaticFitsExactly(str, maxLen);
      }
    }
  }

  lemma StaticBound(maxLen: nat, b: byte)
    ensures Min(maxLen, AsChar(b)) + SIZE_VALUES >= 0
    ensures b < 128 ==> AsSize(Min(maxLen, AsChar(b))) == Min(maxLen, b) <= maxLen
    ensures b >= 128 ==> AsSize(Min(maxLen, AsChar(b))) >= SIZE_VALUES - 128
  {
  }

  // What a field holds and how it is read, for the lengths that fit: the length, then the string
  // up to the end of the field; the read takes as many bytes as the length byte says, at most the
  // field, and stops early at a NUL.
  lemma StaticLayout(str: seq<byte>, maxLen: nat)
    requires maxLen < 128
    ensures StoredLen(str, maxLen) >= 0
    ensures StaticBytes(str, maxLen) == if |str| <= maxLen then [|str|] + str else [maxLen] + str[..maxLen]
  {
  }

  lemma ReadStaticExactly(s: seq<byte>, at: nat, maxLen: nat, k: nat)
    requires at + 1 + maxLen <= |s| && s[at] < 128
    ensures (ReadStatic(s, at, maxLen).Some? && |ReadStatic(s, at, maxLen).value| == k) <==>
      StopsAt(s, at + 1, if s[at] < maxLen then s[at] else maxLen, k)
    ensures ReadStatic(s, at, maxLen).Some? ==>
      var r := ReadStatic(s, at, maxLen).value; r == s[at + 1..at + 1 + |r|]
  {
    StaticBound(maxLen, s[at]);
    hide AsSize, AsChar, StopsAt;
    ScanExactly(s, at + 1, if s[at] < maxLen then s[at] else maxLen, k);
  }

  // Reading a field of a packet stays inside the packet exactly when the length byte is a
  // length, or some NUL follows in the packet.
  lemma ReadStaticStaysExactly(s: seq<byte>, at: nat, maxLen: nat)
    requires at + 1 + maxLen <= |s| < SIZE_VALUES - 128
    ensures ReadStatic(s, at, maxLen).Some? <==> s[at] < 128 || !NulFree(s[at + 1..])
    ensures var r := ReadStatic(s, at, maxLen); s[at] < 128 && r.Some? ==> |r.value| <= Min(maxLen, s[at])
  {
    StaticBound(maxLen, s[at]);
    hide AsSize, AsChar, NulFree;
    OverrunsExactly(s, at + 1, AsSize(Min(maxLen, AsChar(s[at]))));
  }
}
