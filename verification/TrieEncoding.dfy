/** Key encodings of proton/trie/encoding.go: KEYBYTES, HEX and COMPACT (hex-prefix). */
module TrieEncoding {
  import opened Bytes

  /** One nibble a byte, with an optional terminator 16 at the end. */
  type Hex = seq<byte>

  const TERM: byte := 16

  /** Nibbles, and at most a terminator in the last place. */
  predicate HexKey(h: Hex) {
    && (forall i :: 0 <= i < |h| - 1 ==> h[i] < 16)
    && (h != [] ==> h[|h| - 1] <= TERM)
  }

  predicate Plain(h: Hex) {
    forall i :: 0 <= i < |h| ==> h[i] < 16
  }

  /** A full key: nibbles, then the terminator. */
  predicate TermKey(h: Hex) {
    HexKey(h) && HasTerm(h)
  }

  predicate HasTerm(h: Hex) {
    |h| > 0 && h[|h| - 1] == TERM
  }

  function Unpack(s: seq<byte>): (h: Hex)
    ensures |h| == 2 * |s| && Plain(h)
  {
    if s == [] then [] else [s[0] / 16, s[0] % 16] + Unpack(s[1..])
  }

  function Pack(h: Hex): (s: seq<byte>)
    requires |h| % 2 == 0 && Plain(h)
    ensures |s| == |h| / 2
  {
    if h == [] then [] else [h[0] * 16 + h[1]] + Pack(h[2..])
  }

  function KeybytesToHex(s: seq<byte>): (h: Hex)
    ensures TermKey(h) && |h| == 2 * |s| + 1
  {
    Unpack(s) + [TERM]
  }

  function HexToKeybytes(h: Hex): (s: seq<byte>)
    requires HexKey(h) && (if HasTerm(h) then |h| % 2 == 1 else |h| % 2 == 0)
  {
    Pack(if HasTerm(h) then h[..|h| - 1] else h)
  }

  function HexToCompact(h: Hex): (s: seq<byte>)
    requires HexKey(h)
    ensures s != []
  {
    if HasTerm(h) then WithFlag(0x20, h[..|h| - 1]) else WithFlag(0, h)
  }

  /** Flag byte, with the first nibble of an odd key in it, then the rest two nibbles a byte. */
  function WithFlag(flag: byte, n: Hex): (s: seq<byte>)
    requires flag <= 0x20 && Plain(n)
    ensures s != []
  {
    if |n| % 2 == 1 then [flag + 0x10 + n[0]] + Pack(n[1..]) else [flag] + Pack(n)
  }

  function CompactToHex(c: seq<byte>): (h: Hex)
    ensures HexKey(h)
  {
    if c == [] then []
    else
      var base := KeybytesToHex(c);
      var cut := if base[0] < 2 then base[..|base| - 1] else base;
      cut[2 - base[0] % 2..]
  }

  lemma {:induction false} UnpackPack(h: Hex)
    requires |h| % 2 == 0 && Plain(h)
    ensures Unpack(Pack(h)) == h
  {
    if h != [] {
      UnpackPack(h[2..]);
      assert h == [h[0], h[1]] + h[2..];
    }
  }

  lemma {:induction false} PackUnpack(s: seq<byte>)
    ensures Pack(Unpack(s)) == s
  {
    if s != [] {
      PackUnpack(s[1..]);
      assert Unpack(s)[2..] == Unpack(s[1..]);
    }
  }

  /** Key bytes survive the trip through HEX. */
  lemma KeybytesRoundTrip(s: seq<byte>)
    ensures HexToKeybytes(KeybytesToHex(s)) == s
  {
    PackUnpack(s);
    assert KeybytesToHex(s)[..2 * |s|] == Unpack(s);
  }

  /** Distinct keys have distinct HEX forms. */
  lemma KeybytesInjective(a: seq<byte>, b: seq<byte>)
    requires KeybytesToHex(a) == KeybytesToHex(b)
    ensures a == b
  {
    KeybytesRoundTrip(a);
    KeybytesRoundTrip(b);
  }

  lemma UnpackCons(b: byte, s: seq<byte>)
    ensures Unpack([b] + s) == [b / 16, b % 16] + Unpack(s)
  {
    assert ([b] + s)[1..] == s;
  }

  lemma FlagBase(flag: byte, low: byte, tail: Hex)
    requires flag < 4 && low < 16 && |tail| % 2 == 0 && Plain(tail)
    ensures KeybytesToHex([flag * 16 + low] + Pack(tail)) == [flag, low] + tail + [TERM]
  {
    hide *;
    Nibbles(flag, low);
    HeaderBase(flag * 16 + low, flag, low, tail);
  }

  lemma HeaderBase(b: byte, flag: byte, low: byte, tail: Hex)
    requires b / 16 == flag && b % 16 == low && |tail| % 2 == 0 && Plain(tail)
    ensures KeybytesToHex([b] + Pack(tail)) == [flag, low] + tail + [TERM]
  {
    hide *;
    UnpackPack(tail);
    UnpackCons(b, Pack(tail));
    HexOf([b] + Pack(tail));
  }

  lemma HexOf(s: seq<byte>)
    ensures KeybytesToHex(s) == Unpack(s) + [TERM]
  {}

  lemma Nibbles(flag: byte, low: byte)
    requires flag < 4 && low < 16
    ensures (flag * 16 + low) / 16 == flag && (flag * 16 + low) % 16 == low
  {}

  /** CompactToHex on a header byte with flag nibble f, once the nibbles are laid out. */
  lemma Chop(c: seq<byte>, f: byte, low: byte, tail: Hex)
    requires c != [] && f < 4 && low < 16 && Plain(tail)
    requires KeybytesToHex(c) == [f, low] + tail + [TERM]
    ensures CompactToHex(c) == (if f % 2 == 1 then [low] else []) + tail + (if f < 2 then [] else [TERM])
  {
    hide KeybytesToHex;
    hide HexKey;
    var base := [f, low] + tail + [TERM];
    assert base[..|base| - 1] == [f, low] + tail;
    assert base[1..] == [low] + tail + [TERM] && base[2..] == tail + [TERM];
    assert ([f, low] + tail)[1..] == [low] + tail && ([f, low] + tail)[2..] == tail;
  }

  lemma WithFlagRoundTrip(f: byte, n: Hex)
    requires f in {0, 2} && Plain(n)
    ensures CompactToHex(WithFlag(f * 16, n)) == n + if f == 0 then [] else [TERM]
  {
    hide KeybytesToHex;
    hide CompactToHex;
    hide Pack;
    if |n| % 2 == 1 {
      FlagBase(f + 1, n[0], n[1..]);
      Chop(WithFlag(f * 16, n), f + 1, n[0], n[1..]);
      assert [n[0]] + n[1..] == n;
    } else {
      FlagBase(f, 0, n);
      Chop(WithFlag(f * 16, n), f, 0, n);
      assert [] + n == n;
    }
  }

  /** COMPACT keeps the nibbles, their number and the terminator. */
  lemma CompactRoundTrip(h: Hex)
    requires HexKey(h)
    ensures CompactToHex(HexToCompact(h)) == h
  {
    hide CompactToHex;
    hide WithFlag;
    if HasTerm(h) {
      WithFlagRoundTrip(2, h[..|h| - 1]);
      assert h == h[..|h| - 1] + [TERM];
    } else {
      WithFlagRoundTrip(0, h);
    }
  }

  lemma CompactInjective(a: Hex, b: Hex)
    requires HexKey(a) && HexKey(b) && HexToCompact(a) == HexToCompact(b)
    ensures a == b
  {
    CompactRoundTrip(a);
    CompactRoundTrip(b);
  }

  /** Length of the common prefix. */
  function PrefixLen(a: Hex, b: Hex): (n: nat)
    ensures n <= |a| && n <= |b|
    ensures a[..n] == b[..n]
    ensures n < |a| && n < |b| ==> a[n] != b[n]
  {
    if a != [] && b != [] && a[0] == b[0] then
      var n := PrefixLen(a[1..], b[1..]);
      assert a[..n + 1] == [a[0]] + a[1..][..n];
      assert b[..n + 1] == [b[0]] + b[1..][..n];
      1 + n
    else 0
  }

  /** The loop of prefixLen. */
  method PrefixLenLoop(a: Hex, b: Hex) returns (i: nat)
    ensures i == PrefixLen(a, b)
  {
    i := 0;
    var length := if |b| < |a| then |b| else |a|;
    while i < length
      invariant i <= length && PrefixLen(a, b) == i + PrefixLen(a[i..], b[i..])
    {
      if a[i] != b[i] {
        break;
      }
      assert a[i..][1..] == a[i + 1..] && b[i..][1..] == b[i + 1..];
      i := i + 1;
    }
  }

  /** The loop of keybytesToHex, filling a nibble buffer. */
  method KeybytesToHexLoop(str: seq<byte>) returns (nibbles: array<byte>)
    ensures nibbles[..] == KeybytesToHex(str)
  {
    var l := |str| * 2 + 1;
    nibbles := new byte[l](_ => 0);
    for i := 0 to |str|
      invariant nibbles[..2 * i] == Unpack(str[..i])
    {
      nibbles[i * 2], nibbles[i * 2 + 1] := str[i] / 16, str[i] % 16;
      UnpackSnoc(str[..i], str[i]);
      assert str[..i + 1] == str[..i] + [str[i]];
    }
    nibbles[l - 1] := TERM;
    assert str[..|str|] == str;
    assert nibbles[..] == nibbles[..2 * |str|] + [TERM];
  }

  lemma {:induction false} UnpackSnoc(s: seq<byte>, b: byte)
    ensures Unpack(s + [b]) == Unpack(s) + [b / 16, b % 16]
  {
    if s == [] {
      assert s + [b] == [b];
      assert Unpack([b]) == [b / 16, b % 16] + Unpack([b][1..]);
    } else {
      UnpackSnoc(s[1..], b);
      assert (s + [b])[1..] == s[1..] + [b];
    }
  }

  /** The loop of decodeNibbles: pairs of nibbles into the byte buffer. */
  method DecodeNibbles(nibbles: Hex, bytes: array<byte>)
    requires |nibbles| % 2 == 0 && Plain(nibbles) && bytes.Length == |nibbles| / 2
    modifies bytes
    ensures bytes[..] == Pack(nibbles)
  {
    var bi, ni := 0, 0;
    while ni < |nibbles|
      invariant ni == 2 * bi && ni <= |nibbles|
      invariant forall j :: 0 <= j < bi ==> bytes[j] == nibbles[2 * j] * 16 + nibbles[2 * j + 1]
    {
      bytes[bi] := nibbles[ni] * 16 + nibbles[ni + 1];
      bi, ni := bi + 1, ni + 2;
    }
    PackAt(nibbles);
  }

  lemma {:induction false} PackAt(h: Hex)
    requires |h| % 2 == 0 && Plain(h)
    ensures forall j :: 0 <= j < |h| / 2 ==> Pack(h)[j] == h[2 * j] * 16 + h[2 * j + 1]
  {
    if h != [] {
      PackAt(h[2..]);
      forall j | 0 < j < |h| / 2
        ensures Pack(h)[j] == h[2 * j] * 16 + h[2 * j + 1]
      {
        assert Pack(h)[j] == Pack(h[2..])[j - 1];
      }
    }
  }
}
