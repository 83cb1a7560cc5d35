/**
 * Sparse bitset compression (common/bitutil/compress.go): the non-zero bytes, preceded by the
 * compressed bit vector that says where they go.
 */
module BitCompress {
  import opened Bytes
  import Words

  datatype Error = MissingData | UnreferencedData | ExceededTarget | ZeroContent

  // ---- bits ----

  /** n & 1 << k != 0. */
  predicate Bit(n: nat, k: nat) {
    if k == 0 then n % 2 == 1 else Bit(n / 2, k - 1)
  }

  /** n | 1 << k. */
  function SetBit(n: nat, k: nat): (r: nat) {
    if k == 0 then n / 2 * 2 + 1 else n % 2 + 2 * SetBit(n / 2, k - 1)
  }

  lemma {:induction false} SetBitBits(n: nat, k: nat, j: nat)
    ensures Bit(SetBit(n, k), j) <==> j == k || Bit(n, j)
  {
    if k > 0 && j > 0 {
      SetBitBits(n / 2, k - 1, j - 1);
      assert SetBit(n, k) / 2 == SetBit(n / 2, k - 1);
    }
  }

  lemma {:induction false} SetBitBound(n: nat, k: nat, width: nat)
    requires k < width && n < Words.Pow2(width)
    ensures SetBit(n, k) < Words.Pow2(width)
  {
    if k > 0 {
      SetBitBound(n / 2, k - 1, width - 1);
    }
  }

  /** A number is determined by its bits. */
  lemma {:induction false} SameBits(a: nat, b: nat, width: nat)
    requires a < Words.Pow2(width) && b < Words.Pow2(width) && forall j :: 0 <= j < width ==> Bit(a, j) == Bit(b, j)
    ensures a == b
  {
    if width > 0 {
      assert Bit(a, 0) == Bit(b, 0);
      forall j | 0 <= j < width - 1
        ensures Bit(a / 2, j) == Bit(b / 2, j)
      {
        assert Bit(a, j + 1) == Bit(b, j + 1);
      }
      SameBits(a / 2, b / 2, width - 1);
    }
  }

  lemma EightBits()
    ensures Words.Pow2(8) == 256
  {
    assert Words.Pow2(4) == 16;
  }

  /** Bits of a bit vector, most significant first within a byte. */
  predicate BitAt(bits: seq<byte>, i: nat)
    requires i / 8 < |bits|
  {
    Bit(bits[i / 8], 7 - i % 8)
  }

  /** Bit i of the vector tells whether byte i is there and not zero. */
  ghost predicate Marks(bits: seq<byte>, data: seq<byte>) {
    && |bits| == (|data| + 7) / 8
    && forall i: nat :: i / 8 < |bits| ==> (BitAt(bits, i) <==> i < |data| && data[i] != 0)
  }

  lemma MarksUnique(a: seq<byte>, b: seq<byte>, data: seq<byte>)
    requires Marks(a, data) && Marks(b, data)
    ensures a == b
  {
    forall k | 0 <= k < |a|
      ensures a[k] == b[k]
    {
      EightBits();
      forall j | 0 <= j < 8
        ensures Bit(a[k], j) == Bit(b[k], j)
      {
        var i: nat := 8 * k + 7 - j;
        assert i / 8 == k && 7 - i % 8 == j;
        assert BitAt(a, i) == BitAt(b, i);
      }
      SameBits(a[k], b[k], 8);
    }
  }

  function NonZero(data: seq<byte>): (nz: seq<byte>) {
    if data == [] then [] else (if data[0] != 0 then [data[0]] else []) + NonZero(data[1..])
  }

  lemma {:induction false} NonZeroConcat(a: seq<byte>, b: seq<byte>)
    ensures NonZero(a + b) == NonZero(a) + NonZero(b)
  {
    if a == [] {
      assert a + b == b;
    } else {
      NonZeroConcat(a[1..], b);
      assert (a + b)[1..] == a[1..] + b;
      var head := if a[0] != 0 then [a[0]] else [];
      Joined(head, NonZero(a[1..]), NonZero(b));
    }
  }

  lemma Joined(a: seq<byte>, b: seq<byte>, c: seq<byte>)
    ensures a + (b + c) == a + b + c
  {}

  ghost predicate AllZero(data: seq<byte>) {
    forall i :: 0 <= i < |data| ==> data[i] == 0
  }

  lemma {:induction false} NonZeroNone(data: seq<byte>)
    ensures NonZero(data) == [] <==> AllZero(data)
    ensures |NonZero(data)| <= |data|
  {
    if data != [] {
      NonZeroNone(data[1..]);
      assert AllZero(data) <==> data[0] == 0 && AllZero(data[1..]);
    }
  }

  /** Bytes are determined by where they are zero and what they are elsewhere. */
  lemma {:induction false} Rebuild(a: seq<byte>, b: seq<byte>)
    requires |a| == |b| && forall i :: 0 <= i < |a| ==> (a[i] == 0 <==> b[i] == 0)
    ensures |NonZero(a)| == |NonZero(b)|
    ensures NonZero(a) == NonZero(b) ==> a == b
  {
    if a != [] {
      Rebuild(a[1..], b[1..]);
      assert a == [a[0]] + a[1..] && b == [b[0]] + b[1..];
      if a[0] == 0 {
        assert NonZero(a) == NonZero(a[1..]) && NonZero(b) == NonZero(b[1..]);
      } else if NonZero(a) == NonZero(b) {
        assert NonZero(a)[0] == a[0] && NonZero(b)[0] == b[0];
        assert NonZero(a)[1..] == NonZero(a[1..]) && NonZero(b)[1..] == NonZero(b[1..]);
      }
    }
  }

  // ---- encoding ----

  /** The bit vector of the non-zero bytes. */
  ghost function Bitset(data: seq<byte>): (bits: seq<byte>)
    ensures Marks(bits, data)
  {
    MarksExist(data);
    var bits :| Marks(bits, data);
    bits
  }

  lemma {:induction false} MarksExist(data: seq<byte>)
    ensures exists bits :: Marks(bits, data)
  {
    var bits := BitsUpTo(data, |data|);
    assert Marks(bits, data);
  }

  /** The vector after the first n bytes have been looked at. */
  ghost function BitsUpTo(data: seq<byte>, n: nat): (bits: seq<byte>)
    requires n <= |data|
    ensures |bits| == (|data| + 7) / 8
    ensures forall i: nat :: i / 8 < |bits| ==> (BitAt(bits, i) <==> i < n && data[i] != 0)
  {
    if n == 0 then
      ZeroBits((|data| + 7) / 8);
      seq((|data| + 7) / 8, _ => 0)
    else
      var bits := BitsUpTo(data, n - 1);
      if data[n - 1] == 0 then bits
      else
        OrBit(bits, n - 1);
        bits[(n - 1) / 8 := Or(bits[(n - 1) / 8], n - 1)]
  }

  /** The byte with the bit of position i set. */
  function Or(b: byte, i: nat): (r: byte) {
    EightBits();
    SetBitBound(b, 7 - i % 8, 8);
    SetBit(b, 7 - i % 8)
  }

  lemma {:induction false} NoBits(k: nat)
    ensures !Bit(0, k)
  {
    if k > 0 {
      NoBits(k - 1);
    }
  }

  lemma ZeroBits(n: nat)
    ensures var bits: seq<byte> := seq(n, _ => 0); forall i: nat :: i / 8 < n ==> !BitAt(bits, i)
  {
    forall i: nat | i / 8 < n
      ensures !Bit(0, 7 - i % 8)
    {
      NoBits(7 - i % 8);
    }
  }

  lemma OrBit(bits: seq<byte>, n: nat)
    requires n / 8 < |bits|
    ensures var r := bits[n / 8 := Or(bits[n / 8], n)];
      forall i: nat :: i / 8 < |bits| ==> (BitAt(r, i) <==> i == n || BitAt(bits, i))
  {
    var r := bits[n / 8 := Or(bits[n / 8], n)];
    forall i: nat | i / 8 < |bits|
      ensures BitAt(r, i) <==> i == n || BitAt(bits, i)
    {
      if i / 8 == n / 8 {
        SetBitBits(bits[n / 8], 7 - n % 8, 7 - i % 8);
        assert i == 8 * (i / 8) + i % 8 && n == 8 * (n / 8) + n % 8;
      }
    }
  }

  /** The recursive definition: nothing for zeroes, single bytes as they are, else bit vector and bytes. */
  ghost function Encode(data: seq<byte>): (out: seq<byte>)
    decreases |data|
  {
    if AllZero(data) then []
    else if |data| == 1 then data
    else Encode(Bitset(data)) + NonZero(data)
  }

  /** bitsetEncodeBytes. */
  method BitsetEncodeBytes(data: seq<byte>) returns (out: seq<byte>)
    ensures out == Encode(data)
    decreases |data|
  {
    if |data| == 0 {
      return [];
    }
    if |data| == 1 {
      if data[0] == 0 {
        return [];
      }
      return data;
    }
    var bits, nz := new byte[(|data| + 7) / 8](_ => 0), [];
    ZeroBits(bits.Length);
    assert bits[..] == seq(bits.Length, _ => 0);
    for i := 0 to |data|
      invariant nz == NonZero(data[..i])
      invariant forall k: nat :: k / 8 < bits.Length ==> (BitAt(bits[..], k) <==> k < i && data[k] != 0)
    {
      assert data[..i + 1] == data[..i] + [data[i]];
      NonZeroConcat(data[..i], [data[i]]);
      if data[i] != 0 {
        nz := nz + [data[i]];
        OrBit(bits[..], i);
        ghost var was := bits[..];
        bits[i / 8] := Or(bits[i / 8], i);
        assert bits[..] == was[i / 8 := Or(was[i / 8], i)];
      }
    }
    assert data[..|data|] == data;
    NonZeroNone(data);
    if |nz| == 0 {
      return [];
    }
    assert Marks(bits[..], data);
    MarksUnique(bits[..], Bitset(data), data);
    var head := BitsetEncodeBytes(bits[..]);
    return head + nz;
  }

  // ---- decoding ----

  /** The bytes that the vector spreads out: as many as asked for, and found in the data from p on. */
  ghost predicate Spreads(bits: seq<byte>, data: seq<byte>, p: nat, target: nat, out: seq<byte>) {
    && |out| == target && Marks(bits, out) && p <= |data| && NonZero(out) <= data[p..]
  }

  lemma SpreadsUnique(bits: seq<byte>, data: seq<byte>, p: nat, target: nat, a: seq<byte>, b: seq<byte>)
    requires Spreads(bits, data, p, target, a) && Spreads(bits, data, p, target, b)
    ensures a == b
  {
    forall i: nat | i < target
      ensures a[i] == 0 <==> b[i] == 0
    {
      assert BitAt(bits, i) <==> a[i] != 0;
      assert BitAt(bits, i) <==> b[i] != 0;
    }
    Rebuild(a, b);
  }

  /** Part of the way: the bits before i are accounted for by the first bytes. */
  ghost predicate Partial(bits: seq<byte>, data: seq<byte>, p: nat, i: nat, out: seq<byte>, q: nat) {
    && i / 8 <= |bits| && p <= q <= |data| && NonZero(out) == data[p..q]
    && forall k: nat :: k < i && k / 8 < |bits| ==> (BitAt(bits, k) <==> k < |out| && out[k] != 0)
  }

  /** What a complete answer must have at the next position that is marked. */
  lemma NextByte(bits: seq<byte>, data: seq<byte>, p: nat, target: nat, i: nat, out: seq<byte>, q: nat, d: seq<byte>)
    requires Spreads(bits, data, p, target, d) && i / 8 < |bits| && BitAt(bits, i)
    requires Partial(bits, data, p, i, out, q) && (i <= target ==> |out| == i)
    ensures i < target && q < |data| && data[q] == d[i] && d[i] != 0
  {
    assert i < |d| && d[i] != 0;
    assert d == d[..i] + ([d[i]] + d[i + 1..]);
    NonZeroConcat(d[..i], [d[i]] + d[i + 1..]);
    forall k: nat | k < i
      ensures d[..i][k] == 0 <==> out[k] == 0
    {
      assert BitAt(bits, k) <==> d[k] != 0;
    }
    Rebuild(d[..i], out);
    var nz := NonZero(d);
    assert nz[q - p] == d[i];
    assert data[p..][q - p] == data[q];
  }

  /** The loop of bitsetDecodePartialBytes: marked positions take the next byte, the others stay zero. */
  method Spread(bits: seq<byte>, data: seq<byte>, p: nat, target: nat) returns (r: Result<(seq<byte>, nat), Error>)
    requires |bits| == (target + 7) / 8 && p <= |data|
    ensures r.Ok? ==> Spreads(bits, data, p, target, r.value.0) && r.value.1 == p + |NonZero(r.value.0)|
    ensures r.Err? ==> forall d :: !Spreads(bits, data, p, target, d)
  {
    var decomp := new byte[target](_ => 0);
    var ptr: nat := p;
    for i := 0 to 8 * |bits|
      invariant Partial(bits, data, p, i, decomp[..if i < target then i else target], ptr)
      invariant forall k :: i <= k < target ==> decomp[k] == 0
    {
      ghost var out := decomp[..if i < target then i else target];
      if BitAt(bits, i) {
        forall d | Spreads(bits, data, p, target, d)
          ensures i < target && ptr < |data| && data[ptr] == d[i] && d[i] != 0
        {
          NextByte(bits, data, p, target, i, out, ptr, d);
        }
        if ptr >= |data| {
          return Err(MissingData);
        }
        if i >= target {
          return Err(ExceededTarget);
        }
        if data[ptr] == 0 {
          return Err(ZeroContent);
        }
        decomp[i] := data[ptr];
        ptr := ptr + 1;
        assert data[p..ptr] == data[p..ptr - 1] + [data[ptr - 1]];
      }
      if i < target {
        assert decomp[..i + 1] == out + [decomp[i]];
        NonZeroConcat(out, [decomp[i]]);
      }
    }
    assert decomp[..target] == decomp[..];
    return Ok((decomp[..], ptr));
  }

  // ---- the two are inverse ----

  lemma MarksZero(bits: seq<byte>, data: seq<byte>)
    requires Marks(bits, data)
    ensures AllZero(bits) <==> AllZero(data)
  {
    if AllZero(bits) {
      forall i: nat | i < |data|
        ensures data[i] == 0
      {
        NoBits(7 - i % 8);
        assert !BitAt(bits, i);
      }
    }
    if AllZero(data) {
      var zeros: seq<byte> := seq(|bits|, _ => 0);
      ZeroBits(|bits|);
      assert Marks(zeros, data);
      MarksUnique(bits, zeros, data);
    }
  }

  lemma {:induction false} EncodeNone(data: seq<byte>)
    ensures Encode(data) == [] <==> AllZero(data)
    decreases |data|
  {
    NonZeroNone(data);
  }

  /** A non-empty encoding of several bytes begins with the encoding of the bit vector. */
  lemma EncodeSplit(d: seq<byte>, data: seq<byte>)
    requires |d| >= 2 && Encode(d) <= data && Encode(d) != []
    ensures
      var head := Encode(Bitset(d));
      && |Bitset(d)| == (|d| + 7) / 8
      && head != [] && head <= data && NonZero(d) <= data[|head|..] && |Encode(d)| == |head| + |NonZero(d)|
  {
    hide NonZero;
    EncodeNone(d);
    MarksZero(Bitset(d), d);
    EncodeNone(Bitset(d));
    var head := Encode(Bitset(d));
    assert Encode(d) == head + NonZero(d);
    assert data[|head|..][..|NonZero(d)|] == NonZero(d);
  }

  /** d is what the data begins with; a run of zeroes, which encodes to nothing, only counts if nothing follows. */
  ghost predicate Starts(data: seq<byte>, target: nat, d: seq<byte>) {
    |d| == target && Encode(d) <= data && (Encode(d) != [] || data == [])
  }

  /** bitsetDecodePartialBytes: what it accepts re-encodes to what it consumed, and it accepts every encoding. */
  method BitsetDecodePartialBytes(data: seq<byte>, target: nat) returns (r: Result<(seq<byte>, nat), Error>)
    ensures r.Ok? ==> |r.value.0| == target && r.value.1 <= |data| && Encode(r.value.0) == data[..r.value.1]
    ensures forall d :: Starts(data, target, d) ==> r == Ok((d, |Encode(d)|))
    decreases target
  {
    hide Marks;
    hide NonZero;
    hide AllZero;
    if target == 0 {
      EncodeEmpty();
      return Ok(([], 0));
    }
    if |data| == 0 {
      r := Ok((seq(target, _ => 0), 0));
      ZeroAnswer(target);
      return;
    }
    if target == 1 {
      r := Ok(([data[0]], if data[0] != 0 then 1 else 0));
      SingleAnswer(data);
      return;
    }
    var b := BitsetDecodePartialBytes(data, (target + 7) / 8);
    forall d | Starts(data, target, d)
      ensures b == Ok((Bitset(d), |Encode(Bitset(d))|)) && Spreads(Bitset(d), data, |Encode(Bitset(d))|, target, d)
    {
      EncodeSplit(d, data);
      assert Starts(data, (target + 7) / 8, Bitset(d));
    }
    if b.Err? {
      return Err(b.error);
    }
    var (bits, p) := b.value;
    r := Spread(bits, data, p, target);
    if r.Ok? {
      SpreadEncoded(bits, data, p, target, r.value.0);
      forall d | Starts(data, target, d)
        ensures r == Ok((d, |Encode(d)|))
      {
        EncodeSplit(d, data);
        SpreadsUnique(bits, data, p, target, d, r.value.0);
      }
    }
  }

  lemma EncodeEmpty()
    ensures Encode([]) == []
  {}

  lemma SingleAnswer(data: seq<byte>)
    requires data != []
    ensures Encode([data[0]]) == data[..if data[0] != 0 then 1 else 0]
    ensures forall d :: Starts(data, 1, d) ==> d == [data[0]] && d != [0] && |Encode(d)| == 1
  {
    EncodeNone([data[0]]);
    var one := [data[0]];
    assert one[0] == data[0];
    assert AllZero(one) <==> data[0] == 0;
    assert data[..1] == [data[0]];
    forall d | Starts(data, 1, d)
      ensures d == [data[0]] && d != [0] && |Encode(d)| == 1
    {
      EncodeNone(d);
      assert Encode(d) == d;
    }
  }

  lemma ZeroAnswer(target: nat)
    ensures var zeros: seq<byte> := seq(target, _ => 0);
      Encode(zeros) == [] && forall d :: Starts([], target, d) ==> d == zeros
  {
    var zeros: seq<byte> := seq(target, _ => 0);
    EncodeNone(zeros);
    forall d | Starts([], target, d)
      ensures d == zeros
    {
      EncodeNone(d);
    }
  }

  lemma SpreadEncoded(bits: seq<byte>, data: seq<byte>, p: nat, target: nat, out: seq<byte>)
    requires Spreads(bits, data, p, target, out) && target >= 2 && Encode(bits) == data[..p]
    ensures Encode(out) == data[..p + |NonZero(out)|]
  {
    MarksUnique(bits, Bitset(out), out);
    MarksZero(bits, out);
    EncodeNone(bits);
    NonZeroNone(out);
    if !AllZero(out) {
      assert data[..p + |NonZero(out)|] == data[..p] + data[p..][..|NonZero(out)|];
    }
  }

  /** bitsetDecodeBytes succeeds exactly on encodings, and then returns what was encoded. */
  method BitsetDecodeBytes(data: seq<byte>, target: nat) returns (r: Result<seq<byte>, Error>)
    ensures forall d :: r == Ok(d) <==> |d| == target && Encode(d) == data
  {
    var p := BitsetDecodePartialBytes(data, target);
    if p.Err? {
      return Err(p.error);
    }
    if p.value.1 != |data| {
      return Err(UnreferencedData);
    }
    assert data[..|data|] == data;
    return Ok(p.value.0);
  }

  /** CompressBytes. */
  method CompressBytes(data: seq<byte>) returns (out: seq<byte>)
    ensures out == if |Encode(data)| < |data| then Encode(data) else data
    ensures |out| <= |data|
  {
    out := BitsetEncodeBytes(data);
    if |out| < |data| {
      return;
    }
    out := data;
  }

  /** DecompressBytes. */
  method DecompressBytes(data: seq<byte>, target: nat) returns (r: Result<seq<byte>, Error>)
    ensures |data| > target ==> r == Err(ExceededTarget)
    ensures |data| == target ==> r == Ok(data)
    ensures |data| < target ==> forall d :: r == Ok(d) <==> |d| == target && Encode(d) == data
  {
    if |data| > target {
      return Err(ExceededTarget);
    }
    if |data| == target {
      return Ok(data);
    }
    r := BitsetDecodeBytes(data, target);
  }

  /** Compressing and decompressing to the original length gives the data back. */
  method CompressRoundTrip(data: seq<byte>) returns (r: Result<seq<byte>, Error>)
    ensures r == Ok(data)
  {
    var c := CompressBytes(data);
    r := DecompressBytes(c, |data|);
  }

  /** No encoding is the beginning of another one for the same length: the input alone tells where it ends. */
  lemma {:induction false} PrefixFree(a: seq<byte>, b: seq<byte>, x: seq<byte>)
    requires |a| == |b| && Encode(a) <= x && Encode(b) <= x && Encode(a) != [] && Encode(b) != []
    ensures a == b
    decreases |a|
  {
    EncodeNone(a);
    EncodeNone(b);
    if |a| >= 2 {
      EncodeSplit(a, x);
      EncodeSplit(b, x);
      PrefixFree(Bitset(a), Bitset(b), x);
      SpreadsUnique(Bitset(a), x, |Encode(Bitset(a))|, |a|, a, b);
    }
  }
}
