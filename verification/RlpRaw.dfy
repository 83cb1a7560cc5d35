/** The slice reader of rlp/raw.go, and decoding by recursive use of it. */
module RlpRaw {
  import opened Bytes
  import opened Rlp

  datatype Kind = KByte | KString | KList

  datatype RlpError =
    | UnexpectedEOF | CanonSize | ValueTooLarge | ExpectedString | ExpectedList

  /** Kind, length of the header, length of the payload. */
  datatype Header = Header(kind: Kind, tag: nat, size: nat)

  datatype Piece = Piece(kind: Kind, content: seq<byte>, rest: seq<byte>)

  function ReadSize(b: seq<byte>, slen: nat): (r: Result<nat, RlpError>)
    requires 1 <= slen <= 8
  {
    if slen > |b| then Err(UnexpectedEOF)
    else
      var s := FromBE(b[..slen]);
      if s < 56 || b[0] == 0 then Err(CanonSize) else Ok(s)
  }

  function ReadKind(buf: seq<byte>): (r: Result<Header, RlpError>)
    ensures r.Ok? ==> r.value.tag + r.value.size <= |buf| && r.value.tag + r.value.size > 0
    ensures r.Ok? && r.value.kind.KList? ==> r.value.tag > 0
  {
    if |buf| == 0 then Err(UnexpectedEOF)
    else
      var b := buf[0];
      if b < 0x80 then Ok(Header(KByte, 0, 1))
      else if b < 0xB8 then
        var size := b - 0x80;
        if size == 1 && |buf| > 1 && buf[1] < 128 then Err(CanonSize)
        else Fit(buf, KString, 1, size)
      else if b < 0xC0 then
        var r := ReadSize(buf[1..], b - 0xB7);
        if r.Err? then Err(r.error) else Fit(buf, KString, b - 0xB7 + 1, r.value)
      else if b < 0xF8 then Fit(buf, KList, 1, b - 0xC0)
      else
        var r := ReadSize(buf[1..], b - 0xF7);
        if r.Err? then Err(r.error) else Fit(buf, KList, b - 0xF7 + 1, r.value)
  }

  /** Rejects values larger than the input slice. */
  function Fit(buf: seq<byte>, k: Kind, tag: nat, size: nat): (r: Result<Header, RlpError>)
    requires tag <= |buf|
  {
    if size > |buf| - tag then Err(ValueTooLarge) else Ok(Header(k, tag, size))
  }

  function Split(b: seq<byte>): (r: Result<Piece, RlpError>)
    ensures r.Ok? ==> |r.value.rest| < |b|
    ensures r.Ok? && r.value.kind.KList? ==> |r.value.content| < |b|
  {
    var k := ReadKind(b);
    if k.Err? then Err(k.error)
    else
      var Header(kind, ts, cs) := k.value;
      Ok(Piece(kind, b[ts..ts + cs], b[ts + cs..]))
  }

  function SplitString(b: seq<byte>): (r: Result<Piece, RlpError>)
  {
    var p := Split(b);
    if p.Ok? && p.value.kind.KList? then Err(ExpectedString) else p
  }

  function SplitList(b: seq<byte>): (r: Result<Piece, RlpError>)
  {
    var p := Split(b);
    if p.Ok? && !p.value.kind.KList? then Err(ExpectedList) else p
  }

  /** What an encoded item looks like to Split. */
  function KindOf(it: Item): (k: Kind) {
    match it
    case Str(s) => if |s| == 1 && s[0] < 0x80 then KByte else KString
    case List(_) => KList
  }

  function Payload(it: Item): (p: seq<byte>) {
    match it
    case Str(s) => s
    case List(items) => EncodeAll(items)
  }

  /** Reading back a long header gives the size it was made from. */
  lemma ReadSizeOfBE(size: nat, tail: seq<byte>)
    requires 56 <= size < TWO64
    ensures 1 <= |ToBE(size)| <= 8
    ensures ReadSize(ToBE(size) + tail, |ToBE(size)|) == Ok(size)
  {
    SizeOfSize(size);
    FromToBE(size);
    assert (ToBE(size) + tail)[..|ToBE(size)|] == ToBE(size);
  }

  /** ReadKind reads back the header of a short payload. */
  lemma ReadShortHead(k: Kind, size: nat, b: seq<byte>, tail: seq<byte>)
    requires size < 56 && size <= |tail| && !k.KByte?
    requires b == (if k.KString? then StringHead(size) else ListHead(size)) + tail
    requires k.KString? && size == 1 ==> tail[0] >= 0x80
    ensures ReadKind(b) == Ok(Header(k, 1, size))
  {}

  /** ReadKind reads back the header of a long payload. */
  lemma ReadLongHead(k: Kind, size: nat, b: seq<byte>, tail: seq<byte>)
    requires 56 <= size < TWO64 && size <= |tail| && !k.KByte?
    requires b == (if k.KString? then StringHead(size) else ListHead(size)) + tail
    ensures ReadKind(b) == Ok(Header(k, 1 + |ToBE(size)|, size))
  {
    hide ToBE;
    hide ReadSize;
    ReadSizeOfBE(size, tail);
    var n := |ToBE(size)|;
    assert b[1..] == ToBE(size) + tail;
    assert b[0] == if k.KString? then 0xB7 + n else 0xF7 + n;
  }

  /** Split undoes Encode in front of any further input. */
  lemma SplitEncode(it: Item, rest: seq<byte>)
    requires |Payload(it)| < TWO64
    ensures Split(Encode(it) + rest) == Ok(Piece(KindOf(it), Payload(it), rest))
  {
    var p, k := Payload(it), KindOf(it);
    var b := Encode(it) + rest;
    if k == KByte {
      assert b[0..1] == p && b[1..] == rest;
    } else {
      var h := if k == KString then StringHead(|p|) else ListHead(|p|);
      assert Encode(it) == h + p;
      hide Encode;
      hide ReadKind;
      assert b == h + (p + rest);
      if |p| < 56 {
        ReadShortHead(k, |p|, b, p + rest);
        assert |h| == 1;
      } else {
        ReadLongHead(k, |p|, b, p + rest);
        assert |h| == 1 + |ToBE(|p|)|;
      }
      SplitHead(k, h, p, rest, b);
    }
  }

  lemma SplitHead(k: Kind, h: seq<byte>, p: seq<byte>, rest: seq<byte>, b: seq<byte>)
    requires b == h + (p + rest) && ReadKind(b) == Ok(Header(k, |h|, |p|))
    ensures Split(b) == Ok(Piece(k, p, rest))
  {
    hide ReadKind;
    assert b[|h|..|h| + |p|] == p && b[|h| + |p|..] == rest;
  }

  /** The header ReadKind accepts is the canonical one for the size it returns. */
  lemma ReadKindCanonical(b: seq<byte>)
    requires ReadKind(b).Ok?
    ensures
      var Header(k, ts, cs) := ReadKind(b).value;
      && cs < TWO64
      && (k.KByte? ==> ts == 0 && cs == 1 && b[0] < 0x80)
      && (k.KString? ==> b[..ts] == StringHead(cs) && (cs == 1 ==> b[ts] >= 0x80))
      && (k.KList? ==> b[..ts] == ListHead(cs))
  {
    assert b[..1] == [b[0]];
    if 0xB8 <= b[0] < 0xC0 {
      LongHeader(b, b[0] - 0xB7);
    } else if b[0] >= 0xF8 {
      LongHeader(b, b[0] - 0xF7);
    }
  }

  /** Whatever Split accepts starts with the canonical header of the payload it returns. */
  lemma SplitCanonical(b: seq<byte>)
    requires Split(b).Ok?
    ensures Split(b).value.kind.KList? ==>
      b == ListHead(|Split(b).value.content|) + Split(b).value.content + Split(b).value.rest
    ensures !Split(b).value.kind.KList? ==>
      && b == EncodeString(Split(b).value.content) + Split(b).value.rest
      && KindOf(Str(Split(b).value.content)) == Split(b).value.kind
    ensures |Split(b).value.content| < TWO64
  {
    hide ReadKind;
    hide Head;
    ReadKindCanonical(b);
    var Header(k, ts, cs) := ReadKind(b).value;
    assert b == b[..ts] + b[ts..ts + cs] + b[ts + cs..];
  }

  /** Size bytes accepted behind a tag are the shortest form of the size. */
  lemma LongHeader(b: seq<byte>, slen: nat)
    requires 1 <= slen <= 8 && |b| > 0 && ReadSize(b[1..], slen).Ok?
    ensures b[..1 + slen] == [b[0]] + ToBE(ReadSize(b[1..], slen).value)
    ensures |ToBE(ReadSize(b[1..], slen).value)| == slen
    ensures 56 <= ReadSize(b[1..], slen).value < TWO64
  {
    var t := b[1..][..slen];
    assert b[..1 + slen] == [b[0]] + t;
    ToFromBE(t);
    FromBEBound(t);
    Pow256Values();
    ToBELength(FromBE(t), 8);
  }

  /** One item from the front of b, by recursive use of Split. */
  function ParseOne(b: seq<byte>): (r: Option<(Item, seq<byte>)>)
    ensures r.Some? ==> |r.value.1| < |b|
    decreases |b|, 0
  {
    var p := Split(b);
    if p.Err? then None
    else if p.value.kind.KList? then
      var xs := ParseAll(p.value.content);
      if xs.None? then None else Some((List(xs.value), p.value.rest))
    else Some((Str(p.value.content), p.value.rest))
  }

  /** All items of a list payload. */
  function ParseAll(b: seq<byte>): (r: Option<seq<Item>>)
    decreases |b|, 1
  {
    if b == [] then Some([])
    else
      var x := ParseOne(b);
      if x.None? then None
      else
        var xs := ParseAll(x.value.1);
        if xs.None? then None else Some([x.value.0] + xs.value)
  }

  /** Every item is read back from its encoding, whatever follows it. */
  lemma {:induction false} ParseEncode(it: Item, rest: seq<byte>)
    requires |Encode(it)| < TWO64
    ensures ParseOne(Encode(it) + rest) == Some((it, rest))
    decreases it, 0
  {
    SplitEncode(it, rest);
    if it.List? {
      ParseEncodeAll(it.items);
    }
  }

  lemma {:induction false} ParseEncodeAll(items: seq<Item>)
    requires |EncodeAll(items)| < TWO64
    ensures ParseAll(EncodeAll(items)) == Some(items)
    decreases items, 1
  {
    if items != [] {
      ParseEncode(items[0], EncodeAll(items[1..]));
      ParseEncodeAll(items[1..]);
      assert items == [items[0]] + items[1..];
    }
  }

  /** What is accepted is the canonical encoding of what is returned. */
  lemma {:induction false} ParseCanonical(b: seq<byte>)
    requires ParseOne(b).Some?
    ensures b == Encode(ParseOne(b).value.0) + ParseOne(b).value.1
    ensures |b| < TWO64 ==> |Encode(ParseOne(b).value.0)| < TWO64
    decreases |b|, 0
  {
    SplitCanonical(b);
    var p := Split(b).value;
    if p.kind.KList? {
      ParseAllCanonical(p.content);
    }
  }

  lemma {:induction false} ParseAllCanonical(b: seq<byte>)
    requires ParseAll(b).Some?
    ensures b == EncodeAll(ParseAll(b).value)
    decreases |b|, 1
  {
    if b != [] {
      ParseCanonical(b);
      var x := ParseOne(b).value;
      ParseAllCanonical(x.1);
      assert ParseAll(b).value[1..] == ParseAll(x.1).value;
    }
  }

  /** Recursive splitting accepts exactly the canonical encodings, and returns the encoded item. */
  lemma ParseExact(b: seq<byte>, it: Item)
    requires |b| < TWO64
    ensures ParseOne(b) == Some((it, [])) <==> b == Encode(it)
  {
    if b == Encode(it) {
      ParseEncode(it, []);
      assert b + [] == b;
    }
    if ParseOne(b) == Some((it, [])) {
      ParseCanonical(b);
    }
  }

  /** Encoding is injective. */
  lemma EncodeInjective(x: Item, y: Item)
    requires |Encode(x)| < TWO64 && Encode(x) == Encode(y)
    ensures x == y
  {
    ParseExact(Encode(x), x);
    ParseExact(Encode(x), y);
  }

  /** Number of values in b, as a function. */
  function Count(b: seq<byte>): (r: Result<nat, RlpError>)
    decreases |b|
  {
    if b == [] then Ok(0)
    else
      var p := Split(b);
      if p.Err? then Err(p.error)
      else
        var n := Count(p.value.rest);
        if n.Err? then n else Ok(n.value + 1)
  }

  /** CountValues, the loop that shrinks the slice. */
  method CountValues(b: seq<byte>) returns (r: Result<nat, RlpError>)
    ensures r == Count(b)
  {
    var i, rest := 0, b;
    while |rest| > 0
      invariant Count(b) == (var c := Count(rest); if c.Err? then c else Ok(c.value + i))
      decreases |rest|
    {
      var h := ReadKind(rest);
      if h.Err? {
        return Err(h.error);
      }
      rest := rest[h.value.tag + h.value.size..];
      i := i + 1;
    }
    return Ok(i);
  }

  /** On the payload of a list, counting gives the number of elements. */
  lemma {:induction false} CountEncodeAll(items: seq<Item>)
    requires |EncodeAll(items)| < TWO64
    ensures Count(EncodeAll(items)) == Ok(|items|)
  {
    if items != [] {
      SplitEncode(items[0], EncodeAll(items[1..]));
      CountEncodeAll(items[1..]);
    }
  }
}
