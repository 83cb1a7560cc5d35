/** The stateful stream decoder of rlp/decode.go, on the path DecodeBytes takes into an interface value. */
module RlpStream {
  import opened Bytes
  import opened Rlp
  import opened RlpRaw

  datatype StreamError =
    | EOL | EOF | Truncated | NonCanonical | TooLarge | ElemTooLarge
    | WantString | WantList | NotInList | NotAtEOL | MoreThanOneValue

  /** How much of the innermost list has been read, and its declared size. */
  datatype ListPos = ListPos(pos: nat, size: nat)

  /** A header that has been read, or would be read next, and the bytes it takes. */
  datatype Ahead = Ahead(kind: Kind, size: nat, byteval: byte, taken: nat)

  /** The header in front of w, without the single-byte rule that Stream checks only after reading. */
  function HeaderOf(w: seq<byte>): (r: Option<Header>)
    ensures r.Some? ==> r.value.tag + r.value.size <= |w| && r.value.tag + r.value.size > 0
  {
    if |w| == 0 then None
    else if w[0] < 0x80 then Some(Header(KByte, 0, 1))
    else if w[0] < 0xB8 then Within(w, KString, 1, w[0] - 0x80)
    else if w[0] < 0xC0 then LongSize(w, KString, w[0] - 0xB7)
    else if w[0] < 0xF8 then Within(w, KList, 1, w[0] - 0xC0)
    else LongSize(w, KList, w[0] - 0xF7)
  }

  function LongSize(w: seq<byte>, k: Kind, n: nat): (r: Option<Header>)
    requires |w| > 0 && 1 <= n <= 8
  {
    if n > |w| - 1 || w[1] == 0 || FromBE(w[1..1 + n]) < 56 then None
    else Within(w, k, 1 + n, FromBE(w[1..1 + n]))
  }

  function Within(w: seq<byte>, k: Kind, tag: nat, size: nat): (r: Option<Header>)
    requires tag <= |w|
  {
    if size > |w| - tag then None else Some(Header(k, tag, size))
  }

  /** The slice reader accepts the same headers, less the strings that should be single bytes. */
  lemma ReadKindIsHeader(w: seq<byte>)
    ensures ReadKind(w).Ok? <==>
      && HeaderOf(w).Some?
      && !(HeaderOf(w).value.kind.KString? && HeaderOf(w).value.size == 1 && w[HeaderOf(w).value.tag] < 128)
    ensures ReadKind(w).Ok? ==> ReadKind(w).value == HeaderOf(w).value
  {
    if |w| > 0 {
      if 0xB8 <= w[0] < 0xC0 && w[0] - 0xB7 <= |w| - 1 {
        assert w[1..][..w[0] - 0xB7] == w[1..1 + (w[0] - 0xB7)];
      } else if w[0] >= 0xF8 && w[0] - 0xF7 <= |w| - 1 {
        assert w[1..][..w[0] - 0xF7] == w[1..1 + (w[0] - 0xF7)];
      }
    }
  }

  function AheadOf(w: seq<byte>): (r: Option<Ahead>)
    ensures r.Some? ==> 0 < r.value.taken && r.value.taken + r.value.size <= |w|
    ensures r.Some? && r.value.kind.KByte? ==> r.value == Ahead(KByte, 0, w[0], 1) && w[0] < 0x80
    ensures r.Some? && !r.value.kind.KByte? ==> w[0] >= 0x80
  {
    var h := HeaderOf(w);
    if h.None? then None
    else if h.value.kind.KByte? then Some(Ahead(KByte, 0, w[0], 1))
    else Some(Ahead(h.value.kind, h.value.size, 0, h.value.tag))
  }

  /** A string that must be encoded as its own byte. */
  predicate IsSingle(s: seq<byte>) {
    |s| == 1 && s[0] < 128
  }

  lemma SplitAhead(w: seq<byte>)
    requires |w| > 0 && w[0] >= 0x80
    ensures AheadOf(w).None? ==> Split(w).Err?
    ensures AheadOf(w).Some? ==>
      var Ahead(k, size, bv, taken) := AheadOf(w).value;
      && (Split(w).Err? <==> k.KString? && size == 1 && w[taken] < 128)
      && (Split(w).Ok? ==> Split(w).value == Piece(k, w[taken..taken + size], w[taken + size..]))
  {
    ReadKindIsHeader(w);
  }

  /** Recursive splitting and the stream agree on every window, header by header. */
  lemma ParseOneNone(w: seq<byte>)
    requires AheadOf(w).None?
    ensures ParseOne(w).None?
  {
    if |w| > 0 {
      SplitAhead(w);
    }
  }

  /** What the bytes behind a header decode to. */
  function Body(a: Ahead, w: seq<byte>): (r: Option<Item>)
    requires a.size <= |w|
  {
    match a.kind
    case KByte => Some(Str([a.byteval]))
    case KString => if IsSingle(w[..a.size]) then None else Some(Str(w[..a.size]))
    case KList =>
      var xs := ParseAll(w[..a.size]);
      if xs.None? then None else Some(Item.List(xs.value))
  }

  /** The header of the value ahead, made anew, with its content. */
  function Rebuilt(a: Ahead, w: seq<byte>): (b: seq<byte>)
    requires a.size <= |w|
  {
    match a.kind
    case KByte => [a.byteval]
    case KString => StringHead(a.size) + w[..a.size]
    case KList => ListHead(a.size) + w[..a.size]
  }

  /** An accepted header is the canonical one, so making it anew changes nothing. */
  lemma RebuiltSame(w: seq<byte>)
    requires AheadOf(w).Some?
    ensures var a := AheadOf(w).value; Rebuilt(a, w[a.taken..]) == w[..a.taken + a.size]
  {
    var a := AheadOf(w).value;
    assert w[..a.taken + a.size] == w[..a.taken] + w[a.taken..][..a.size];
    if a.kind.KByte? {
      assert w[..1] == [w[0]];
    } else if ReadKind(w).Ok? {
      ReadKindIsHeader(w);
      ReadKindCanonical(w);
    } else {
      ReadKindIsHeader(w);
      SingleHeader(w);
    }
  }

  /** The header of a one-byte string that should not have one. */
  lemma SingleHeader(w: seq<byte>)
    requires HeaderOf(w).Some? && HeaderOf(w).value.kind.KString? && HeaderOf(w).value.size == 1
    ensures HeaderOf(w).value.tag == 1 && w[..1] == [0x81] == StringHead(1)
  {}

  /** Raw and recursive splitting accept the same headers, but for the one-byte rule. */
  lemma RawAccepts(w: seq<byte>)
    ensures AheadOf(w).None? ==> Split(w).Err?
    ensures AheadOf(w).Some? ==>
      var a := AheadOf(w).value;
      Split(w).Err? <==> a.kind.KString? && IsSingle(w[a.taken..a.taken + a.size])
  {
    if |w| > 0 && w[0] >= 0x80 {
      SplitAhead(w);
    }
  }

  /** It accepts a byte below 0x80 behind a header of its own, which is no encoding. */
  lemma RawExample()
    ensures AheadOf([0x81, 0x05]) == Some(Ahead(KString, 1, 0, 1)) && Split([0x81, 0x05]).Err?
  {
    RawAccepts([0x81, 0x05]);
  }

  lemma ParseOneBody(w: seq<byte>, a: Ahead)
    requires AheadOf(w) == Some(a)
    ensures
      var body := Body(a, w[a.taken..]);
      ParseOne(w) == if body.None? then None else Some((body.value, w[a.taken + a.size..]))
  {
    hide AheadOf;
    assert w[a.taken..][..a.size] == w[a.taken..a.taken + a.size];
    if a.kind.KByte? {
      assert w[0..1] == [w[0]];
      assert Split(w) == Ok(Piece(KByte, [w[0]], w[1..]));
    } else {
      hide Split;
      SplitAhead(w);
    }
  }

  /** A number of at most max bytes, in its shortest big-endian form. */
  predicate IsNumber(it: Item, max: nat) {
    it.Str? && |it.s| <= max && (it.s == [] || it.s[0] != 0)
  }

  /** The integer reader's own conditions on the bytes behind a header. */
  predicate Numeric(a: Ahead, w: seq<byte>, max: nat)
    requires a.size <= |w|
  {
    match a.kind
    case KByte => a.byteval != 0
    case KString =>
      && a.size <= max
      && (a.size <= 1 || w[0] != 0)
      && (a.size == 0 || FromBE(w[..a.size]) >= 128)
    case KList => false
  }

  function NumberOf(a: Ahead, w: seq<byte>): (n: nat)
    requires a.size <= |w|
  {
    if a.kind.KByte? then a.byteval else FromBE(w[..a.size])
  }

  /** They pick out the items that are numbers in shortest form. */
  lemma NumericBody(a: Ahead, w: seq<byte>, max: nat)
    requires a.size <= |w| && 1 <= max
    ensures Numeric(a, w, max) <==> Body(a, w).Some? && IsNumber(Body(a, w).value, max)
    ensures Numeric(a, w, max) ==> NumberOf(a, w) == FromBE(Body(a, w).value.s)
  {
    var s := w[..a.size];
    if a.kind.KByte? {
      assert [a.byteval][..0] == [];
    } else if a.kind.KString? && a.size == 1 {
      assert s[..0] == [];
      assert FromBE(s) == s[0] == w[0];
    } else if a.kind.KString? && a.size > 1 && s[0] != 0 {
      FromBEPositive(s[..|s| - 1]);
    }
  }

  /** Elements decoded so far in front of what the rest decodes to. */
  function Prepend(xs: seq<Item>, rest: Option<seq<Item>>): (r: Option<seq<Item>>) {
    if rest.None? then None else Some(xs + rest.value)
  }

  lemma PrependSnoc(xs: seq<Item>, x: Item, rest: Option<seq<Item>>)
    ensures Prepend(xs, Prepend([x], rest)) == Prepend(xs + [x], rest)
  {
    if rest.Some? {
      assert xs + ([x] + rest.value) == xs + [x] + rest.value;
    }
  }

  lemma ParseAllCons(w: seq<byte>, x: Item, n: nat)
    requires 0 < n <= |w| && ParseOne(w) == Some((x, w[n..]))
    ensures ParseAll(w) == Prepend([x], ParseAll(w[n..]))
  {}

  lemma ParseAllNone()
    ensures ParseAll([]) == Some([])
  {}

  lemma ParseAllStuck(w: seq<byte>)
    requires w != [] && ParseOne(w).None?
    ensures ParseAll(w).None?
  {}

  /** A one-byte size of zero needs no separate check for leading zeros. */
  lemma OneByte(w: seq<byte>, n: nat)
    ensures n == 1 && |w| > 0 && w[0] == 0 ==> FromBE(w[..n]) == 0
  {
    if n == 1 && |w| > 0 {
      assert FromBE(w[..1][..0]) == 0;
    }
  }

  /** After a tag byte that announces n size bytes. */
  lemma LongAhead(w: seq<byte>, k: Kind, n: nat)
    requires |w| > 0 && 1 <= n <= 8 && HeaderOf(w) == LongSize(w, k, n) && !k.KByte?
    ensures n <= |w| - 1 ==> FromBE(w[1..][..n]) == FromBE(w[1..1 + n])
    ensures AheadOf(w).Some? <==>
      && n <= |w| - 1 && w[1] != 0 && FromBE(w[1..1 + n]) >= 56
      && FromBE(w[1..1 + n]) <= |w| - 1 - n
    ensures AheadOf(w).Some? ==> AheadOf(w).value == Ahead(k, FromBE(w[1..1 + n]), 0, 1 + n)
  {
    if n <= |w| - 1 {
      assert w[1..][..n] == w[1..1 + n];
    }
  }

  /** The tag bytes that carry the size themselves. */
  lemma ShortAhead(w: seq<byte>)
    ensures w == [] ==> AheadOf(w).None?
    ensures w != [] && w[0] < 0x80 ==> AheadOf(w) == Some(Ahead(KByte, 0, w[0], 1))
    ensures w != [] && 0x80 <= w[0] < 0xB8 ==>
      AheadOf(w) == if w[0] - 0x80 <= |w| - 1 then Some(Ahead(KString, w[0] - 0x80, 0, 1)) else None
    ensures w != [] && 0xC0 <= w[0] < 0xF8 ==>
      AheadOf(w) == if w[0] - 0xC0 <= |w| - 1 then Some(Ahead(KList, w[0] - 0xC0, 0, 1)) else None
  {}

  /** The tag bytes that announce the size of the size. */
  lemma LongForm(w: seq<byte>, k: Kind, n: nat)
    requires |w| > 0 && (0xB8 <= w[0] < 0xC0 || 0xF8 <= w[0])
    requires k == if w[0] < 0xC0 then KString else KList
    requires n == if w[0] < 0xC0 then w[0] - 0xB7 else w[0] - 0xF7
    ensures HeaderOf(w) == LongSize(w, k, n)
  {}

  /** Bytes read at the current level are charged to the innermost list. */
  function Bump(stack: seq<ListPos>, n: nat): (r: seq<ListPos>)
    ensures |r| == |stack|
  {
    if stack == [] then []
    else
      var tos := stack[|stack| - 1];
      stack[..|stack| - 1] + [ListPos(tos.pos + n, tos.size)]
  }

  lemma BumpBump(stack: seq<ListPos>, m: nat, n: nat)
    ensures Bump(Bump(stack, m), n) == Bump(stack, m + n)
  {}

  lemma {:induction false} LeadingZeros(k: nat, s: seq<byte>)
    ensures FromBE(seq(k, _ => 0) + s) == FromBE(s)
  {
    var z: seq<byte> := seq(k, _ => 0);
    if s == [] {
      assert z + s == z;
      if k > 0 {
        assert z[..k - 1] == seq(k - 1, _ => 0) + s;
        LeadingZeros(k - 1, s);
      }
    } else {
      assert (z + s)[..k + |s| - 1] == z + s[..|s| - 1];
      LeadingZeros(k, s[..|s| - 1]);
    }
  }

  class Stream {
    const input: seq<byte>
    var pos: nat
    var remaining: nat
    var kind: Option<Kind>
    var size: nat
    var byteval: byte
    var kinderr: Option<StreamError>
    var stack: seq<ListPos>

    constructor (b: seq<byte>)
      ensures input == b && pos == 0 && stack == [] && kind == None
      ensures Valid()
    {
      input := b;
      pos, remaining := 0, |b|;
      kind, size, byteval, kinderr, stack := None, 0, 0, None, [];
    }

    /** Bytes that may still be read at the current level. */
    ghost function Avail(): (n: int)
      reads this
    {
      if stack == [] then |input| - pos
      else stack[|stack| - 1].size - stack[|stack| - 1].pos
    }

    ghost predicate Valid()
      reads this
    {
      && pos <= |input|
      && remaining == |input| - pos
      && 0 <= Avail() <= remaining
      && (kind.Some? ==> kinderr != Some(EOL))
      && (kind.Some? && kinderr.None? ==> size <= Avail() && (kind.value.KByte? ==> size == 0))
    }

    ghost function Window(): (w: seq<byte>)
      requires Valid()
      reads this
    {
      input[pos..pos + Avail()]
    }

    /** The value ahead: cached by an earlier Kind, or readable from the window. */
    ghost function Peek(): (r: Option<Ahead>)
      requires Valid()
      reads this
    {
      if kind.Some? then
        if kinderr.Some? then None else Some(Ahead(kind.value, size, byteval, 0))
      else AheadOf(Window())
    }

    /** What follows the header ahead. */
    ghost function Behind(): (w: seq<byte>)
      requires Valid() && Peek().Some?
      reads this
    {
      Window()[Peek().value.taken..]
    }

    twostate predicate Advanced(n: nat)
      reads this
    {
      && pos == old(pos) + n
      && remaining == old(remaining) - n
      && stack == Bump(old(stack), n)
    }

    method WillRead(n: nat) returns (err: Option<StreamError>)
      requires Valid()
      modifies this
      ensures kind == None
      ensures err.None? <==> n <= old(Avail())
      ensures err.None? ==> pos == old(pos) && remaining == old(remaining) - n && stack == Bump(old(stack), n)
      ensures err.Some? ==> err.value != EOL
      ensures unchanged(`size) && unchanged(`byteval)
    {
      kind := None;
      if |stack| > 0 {
        var tos := stack[|stack| - 1];
        if n > tos.size - tos.pos {
          return Some(ElemTooLarge);
        }
        stack := stack[|stack| - 1 := ListPos(tos.pos + n, tos.size)];
      }
      if n > remaining {
        return Some(TooLarge);
      }
      remaining := remaining - n;
      return None;
    }

    method ReadByte() returns (r: Result<byte, StreamError>)
      requires Valid()
      modifies this
      ensures kind == None
      ensures r.Ok? <==> old(Avail()) >= 1
      ensures r.Ok? ==> Valid() && r.value == old(Window())[0] && Advanced(1)
      ensures r.Err? ==> r.error != EOL
      ensures unchanged(`size) && unchanged(`byteval)
    {
      var err := WillRead(1);
      if err.Some? {
        return Err(err.value);
      }
      if pos >= |input| {
        return Err(Truncated);
      }
      r := Ok(input[pos]);
      pos := pos + 1;
    }

    method ReadFull(n: nat) returns (r: Result<seq<byte>, StreamError>)
      requires Valid()
      modifies this
      ensures kind == None
      ensures r.Ok? <==> old(Avail()) >= n
      ensures r.Ok? ==> Valid() && r.value == old(Window())[..n] && Advanced(n)
      ensures r.Err? ==> r.error != EOL
      ensures unchanged(`byteval)
    {
      var err := WillRead(n);
      if err.Some? {
        return Err(err.value);
      }
      if pos + n > |input| {
        return Err(Truncated);
      }
      r := Ok(input[pos..pos + n]);
      pos := pos + n;
    }

    /** Big-endian integer of n bytes; only sizes of two bytes and more are checked for a leading zero. */
    method ReadUint(n: nat) returns (r: Result<nat, StreamError>)
      requires Valid() && n <= 8
      modifies this
      ensures kind == None
      ensures r.Ok? <==> n <= old(Avail()) && (n <= 1 || old(Window())[0] != 0)
      ensures r.Ok? ==> Valid() && r.value == FromBE(old(Window())[..n]) && Advanced(n)
      ensures r.Err? ==> r.error != EOL
      ensures unchanged(`byteval)
    {
      if n == 0 {
        kind := None;
        assert stack == Bump(stack, 0);
        return Ok(0);
      } else if n == 1 {
        var b := ReadByte();
        if b.Err? {
          return Err(b.error);
        }
        assert old(Window())[..1] == [b.value];
        assert FromBE([b.value][..0]) == 0;
        return Ok(b.value);
      }
      var start := 8 - n;
      var buf := ReadFull(n);
      if buf.Err? {
        return Err(buf.error);
      }
      var uintbuf := seq(start, _ => 0) + buf.value;
      if uintbuf[start] == 0 {
        return Err(NonCanonical);
      }
      LeadingZeros(start, buf.value);
      return Ok(FromBE(uintbuf));
    }

    /** The type tag and size of the next value; the size check against the level is left to Kind. */
    method ReadKind() returns (k: Kind, sz: nat, err: Option<StreamError>)
      requires Valid() && kind == None
      modifies this
      ensures kind == None
      ensures err.Some? ==> err.value != EOL
      ensures AheadOf(old(Window())).Some? ==> err.None?
      ensures err.None? ==>
        && Valid()
        && (sz > Avail() <==> AheadOf(old(Window())).None?)
        && (sz <= Avail() ==>
            var a := AheadOf(old(Window())).value;
            k == a.kind && sz == a.size && byteval == a.byteval && Advanced(a.taken))
    {
      hide AheadOf;
      hide FromBE;
      ghost var w := Window();
      ShortAhead(w);
      var b := ReadByte();
      if b.Err? {
        var e := if |stack| == 0 && b.error in {Truncated, TooLarge} then EOF else b.error;
        return KByte, 0, Some(e);
      }
      byteval := 0;
      assert Window() == w[1..];
      if b.value < 0x80 {
        byteval := b.value;
        return KByte, 0, None;
      } else if b.value < 0xB8 {
        return KString, b.value - 0x80, None;
      } else if 0xC0 <= b.value < 0xF8 {
        return KList, b.value - 0xC0, None;
      }
      k := if b.value < 0xC0 then KString else KList;
      var n := if b.value < 0xC0 then b.value - 0xB7 else b.value - 0xF7;
      LongForm(w, k, n);
      LongAhead(w, k, n);
      sz, err := ReadSize(n);
      BumpBump(old(stack), 1, n);
    }

    /** The size bytes of a long header. */
    method ReadSize(n: nat) returns (sz: nat, err: Option<StreamError>)
      requires Valid() && 1 <= n <= 8
      modifies this
      ensures kind == None && unchanged(`byteval)
      ensures err != Some(EOL)
      ensures err.None? <==> n <= old(Avail()) && old(Window())[0] != 0 && FromBE(old(Window())[..n]) >= 56
      ensures err.None? ==> Valid() && sz == FromBE(old(Window())[..n]) && Advanced(n)
    {
      OneByte(Window(), n);
      var u := ReadUint(n);
      if u.Err? {
        return 0, Some(u.error);
      }
      if u.value < 56 {
        return u.value, Some(NonCanonical);
      }
      return u.value, None;
    }

    /** Nothing is left of the innermost list. */
    ghost predicate AtEnd()
      reads this
    {
      kind == None && stack != [] && Avail() == 0
    }

    /** Kind caches the header; at the end of the innermost list it reports EOL and reads nothing. */
    method Kind() returns (k: Kind, sz: nat, err: Option<StreamError>)
      requires Valid()
      modifies this
      ensures err == Some(EOL) <==> old(AtEnd())
      ensures err == Some(EOL) ==>
        Valid() && kind == None && unchanged(`pos) && unchanged(`stack) && unchanged(`remaining)
      ensures err.None? <==> !old(AtEnd()) && old(Peek()).Some?
      ensures err.None? ==>
        var a := old(Peek()).value;
        && Valid() && kind == Some(a.kind) && kinderr == None && byteval == a.byteval
        && k == a.kind && sz == a.size == size
        && Advanced(a.taken)
        && Window() == old(Window())[a.taken..]
    {
      hide AheadOf;
      if kind.None? {
        kinderr := None;
        if |stack| > 0 && stack[|stack| - 1].pos == stack[|stack| - 1].size {
          return KByte, 0, Some(EOL);
        }
        var k', sz', err' := ReadKind();
        kind, size, kinderr := Some(k'), sz', err';
        if kinderr.None? {
          if |stack| == 0 {
            if size > remaining {
              kinderr := Some(TooLarge);
            }
          } else if size > stack[|stack| - 1].size - stack[|stack| - 1].pos {
            kinderr := Some(ElemTooLarge);
          }
        }
      } else {
        assert stack == Bump(stack, 0);
      }
      return kind.value, size, kinderr;
    }

    /** The payload of the value ahead. */
    ghost function Content(): (c: seq<byte>)
      requires Valid() && Peek().Some?
      reads this
    {
      Window()[Peek().value.taken..][..Peek().value.size]
    }

    /** Reads a string. The single-byte rule is checked once the byte is there. */
    method Bytes() returns (r: Result<seq<byte>, StreamError>)
      requires Valid()
      modifies this
      ensures r == Err(EOL) <==> old(AtEnd())
      ensures old(AtEnd() || Peek().None?) ==> r.Err?
      ensures !old(AtEnd() || Peek().None?) ==>
        var a := old(Peek()).value;
        && (r.Ok? ==> Valid() && kind == None && Advanced(a.taken + a.size))
        && (a.kind.KByte? ==> r == Ok([a.byteval]))
        && (a.kind.KString? ==> r == if IsSingle(old(Content())) then Err(NonCanonical) else Ok(old(Content())))
        && (a.kind.KList? ==> r == Err(WantString))
    {
      hide AheadOf;
      ghost var w := Window();
      var k, sz, err := Kind();
      if err.Some? {
        return Err(err.value);
      }
      ghost var taken := old(Peek()).value.taken;
      assert Window() == w[taken..];
      match k
      case KByte =>
        kind := None;
        return Ok([byteval]);
      case KString =>
        var b := ReadFull(sz);
        BumpBump(old(stack), taken, sz);
        if b.Err? {
          return b;
        }
        if sz == 1 && b.value[0] < 128 {
          return Err(NonCanonical);
        }
        return b;
      case KList =>
        return Err(WantString);
    }

    /**
     * Reads an encoded value with its header, which is made anew; without a cached header that is
     * exactly what was there. Neither the one-byte rule nor what is inside a list is checked.
     */
    method Raw() returns (r: Result<seq<byte>, StreamError>, ghost n: nat)
      requires Valid()
      modifies this
      ensures r == Err(EOL) <==> old(AtEnd())
      ensures r.Ok? <==> !old(AtEnd()) && old(Peek()).Some?
      ensures r.Ok? ==>
        && r.value == Rebuilt(old(Peek()).value, old(Behind())) && n == old(Peek()).value.taken + old(Peek()).value.size
        && Valid() && kind == None && Advanced(n)
      ensures r.Ok? && old(kind).None? ==> n <= |old(Window())| && r.value == old(Window())[..n]
    {
      hide AheadOf;
      hide Bump;
      hide Head;
      ghost var w, a, unread := Window(), Peek(), kind.None?;
      n := 0;
      var k, sz, err := Kind();
      if err.Some? {
        return Err(err.value), 0;
      }
      n := a.value.taken + sz;
      BumpBump(old(stack), a.value.taken, sz);
      if unread {
        RebuiltSame(w);
      }
      if k == KByte {
        kind := None;
        return Ok([byteval]), n;
      }
      var b := ReadFull(sz);
      if b.Err? {
        return Err(b.error), n;
      }
      return Ok((if k == KString then StringHead(sz) else ListHead(sz)) + b.value), n;
    }

    /** Reads an unsigned integer: exactly the strings that hold a number in its shortest form. */
    method Uint(maxbits: nat) returns (r: Result<nat, StreamError>, ghost n: nat)
      requires Valid() && 8 <= maxbits <= 64
      modifies this
      ensures r.Ok? <==> !old(AtEnd()) && old(Peek()).Some? && Numeric(old(Peek()).value, old(Behind()), maxbits / 8)
      ensures r.Ok? ==>
        && r.value == NumberOf(old(Peek()).value, old(Behind()))
        && n == old(Peek()).value.taken + old(Peek()).value.size
        && Valid() && kind == None && Advanced(n)
      ensures old(kind).None? ==>
        (r.Ok? <==> ParseOne(old(Window())).Some? && IsNumber(ParseOne(old(Window())).value.0, maxbits / 8))
      ensures old(kind).None? && r.Ok? ==>
        && r.value == FromBE(ParseOne(old(Window())).value.0.s)
        && 0 < n <= |old(Window())| && ParseOne(old(Window())).value.1 == old(Window())[n..]
    {
      hide ParseOne;
      hide ParseAll;
      hide AheadOf;
      hide Bump;
      hide Body;
      hide Numeric;
      hide NumberOf;
      hide FromBE;
      ghost var w, a, unread := Window(), Peek(), kind.None?;
      n := 0;
      var k, sz, err := Kind();
      if err.Some? {
        if unread {
          ParseOneNone(w);
        }
        return Err(err.value), 0;
      }
      n := a.value.taken + sz;
      if unread {
        ParseOneBody(w, a.value);
        NumericBody(a.value, Window(), maxbits / 8);
      }
      BumpBump(old(stack), a.value.taken, sz);
      r := UintBody(a.value, maxbits);
    }

    /** The integer behind the header that Kind has just read. */
    method UintBody(ghost a: Ahead, maxbits: nat) returns (r: Result<nat, StreamError>)
      requires Valid() && kinderr.None? && kind == Some(a.kind) && size == a.size && byteval == a.byteval
      requires 8 <= maxbits <= 64
      modifies this
      ensures r.Ok? <==> Numeric(a, old(Window()), maxbits / 8)
      ensures r.Ok? ==> r.value == NumberOf(a, old(Window())) && Valid() && kind == None && Advanced(a.size)
    {
      match kind.value
      case KByte =>
        if byteval == 0 {
          return Err(NonCanonical);
        }
        kind := None;
        return Ok(byteval);
      case KString =>
        if size > maxbits / 8 {
          return Err(TooLarge);
        }
        var sz := size;
        r := ReadUint(sz);
        if r.Ok? && sz > 0 && r.value < 128 {
          r := Err(NonCanonical);
        }
      case KList =>
        return Err(WantString);
    }

    /** Enters a list: its declared size becomes the innermost limit. */
    method List() returns (r: Result<nat, StreamError>)
      requires Valid()
      modifies this
      ensures r == Err(EOL) <==> old(AtEnd())
      ensures r.Ok? <==> !old(AtEnd()) && old(Peek()).Some? && old(Peek()).value.kind.KList?
      ensures r.Ok? ==>
        var a := old(Peek()).value;
        && r.value == a.size
        && Valid() && kind == None && pos == old(pos) + a.taken
        && stack == Bump(old(stack), a.taken) + [ListPos(0, a.size)]
    {
      var k, sz, err := Kind();
      if err.Some? {
        return Err(err.value);
      }
      if k != KList {
        return Err(WantList);
      }
      stack := stack + [ListPos(0, sz)];
      kind, size := None, 0;
      return Ok(sz);
    }

    /** Leaves a list that has been read to its end; its bytes count as read in the enclosing one. */
    method ListEnd() returns (err: Option<StreamError>)
      requires pos <= |input| && remaining == |input| - pos
      modifies this
      ensures old(stack) == [] ==> err == Some(NotInList)
      ensures old(stack) != [] ==>
        var tos := old(stack)[|old(stack)| - 1];
        && (err.None? <==> tos.pos == tos.size)
        && (err.Some? ==> err == Some(NotAtEOL))
        && (err.None? ==>
            && kind == None && unchanged(`pos) && unchanged(`remaining)
            && stack == Bump(old(stack)[..|old(stack)| - 1], tos.size))
    {
      if |stack| == 0 {
        return Some(NotInList);
      }
      var tos := stack[|stack| - 1];
      if tos.pos != tos.size {
        return Some(NotAtEOL);
      }
      stack := stack[..|stack| - 1];
      if |stack| > 0 {
        var top := stack[|stack| - 1];
        stack := stack[|stack| - 1 := ListPos(top.pos + tos.size, top.size)];
      }
      kind, size := None, 0;
      return None;
    }

    /**
     * Decoding one value reads the body behind the header ahead, cached or not; without a cached
     * header that is exactly what recursive splitting of the window reads.
     */
    method DecodeInterface() returns (r: Result<Item, StreamError>, ghost n: nat)
      requires Valid()
      modifies this
      ensures r == Err(EOL) <==> old(AtEnd())
      ensures r == Err(EOL) ==>
        Valid() && kind == None && unchanged(`pos) && unchanged(`stack) && unchanged(`remaining)
      ensures r.Ok? <==> !old(AtEnd()) && old(Peek()).Some? && Body(old(Peek()).value, old(Behind())).Some?
      ensures r.Ok? ==>
        && Body(old(Peek()).value, old(Behind())) == Some(r.value)
        && n == old(Peek()).value.taken + old(Peek()).value.size
        && Valid() && kind == None && Advanced(n)
      ensures old(kind).None? && r.Err? ==> ParseOne(old(Window())).None?
      ensures old(kind).None? && r.Ok? ==>
        0 < n <= |old(Window())| && ParseOne(old(Window())) == Some((r.value, old(Window())[n..]))
      decreases |input| - pos, if kind.None? then 1 else 5
    {
      hide ParseOne;
      hide ParseAll;
      hide AheadOf;
      ghost var w, a, unread := Window(), Peek(), kind.None?;
      n := 0;
      var k, sz, err := Kind();
      if err.Some? {
        if unread {
          ParseOneNone(w);
        }
        return Err(err.value), 0;
      }
      n := a.value.taken + sz;
      if unread {
        ParseOneBody(w, a.value);
      }
      BumpBump(old(stack), a.value.taken, sz);
      hide Bump;
      hide Body;
      r := DecodeBody(a.value);
    }

    /** The value behind the header that Kind has just read. */
    method DecodeBody(ghost a: Ahead) returns (r: Result<Item, StreamError>)
      requires Valid() && kinderr.None? && kind == Some(a.kind) && size == a.size && byteval == a.byteval
      modifies this
      ensures r != Err(EOL)
      ensures r.Ok? <==> Body(a, old(Window())).Some?
      ensures r.Ok? ==> r.value == Body(a, old(Window())).value && Valid() && kind == None && Advanced(a.size)
      decreases |input| - pos, 4
    {
      hide ParseAll;
      hide AheadOf;
      ghost var w := Window();
      if kind == Some(KList) {
        var xs := DecodeListSlice();
        r := if xs.Err? then Err(xs.error) else Ok(Item.List(xs.value));
      } else {
        assert w[0..] == w;
        var b := Bytes();
        r := if b.Err? then Err(b.error) else Ok(Str(b.value));
      }
    }

    /** The elements of the list whose header Kind has just read. */
    method DecodeListSlice() returns (r: Result<seq<Item>, StreamError>)
      requires Valid() && kind == Some(KList) && kinderr == None
      modifies this
      ensures r != Err(EOL)
      ensures r.Ok? <==> ParseAll(old(Window())[..old(size)]).Some?
      ensures r.Ok? ==>
        && r.value == ParseAll(old(Window())[..old(size)]).value
        && Valid() && kind == None && Advanced(old(size))
      decreases |input| - pos, 3
    {
      hide ParseOne;
      hide ParseAll;
      hide AheadOf;
      ghost var content, base := Window()[..size], stack;
      ParseAllNone();
      var sz := List();
      assert stack == base + [ListPos(0, sz.value)];
      assert Window() == content;
      if sz.value == 0 {
        assert content == [];
        var e0 := ListEnd();
        return Ok([]);
      }
      var xs := DecodeSliceElems(content);
      if xs.Err? {
        return Err(xs.error);
      }
      var e := ListEnd();
      assert old(stack)[..|old(stack)|] == old(stack);
      return Ok(xs.value);
    }

    /** Decodes elements until the innermost list is exhausted. */
    method DecodeSliceElems(ghost content: seq<byte>) returns (r: Result<seq<Item>, StreamError>)
      requires Valid() && kind == None && stack != [] && Window() == content
      modifies this
      ensures r != Err(EOL)
      ensures r.Ok? <==> ParseAll(content).Some?
      ensures r.Ok? ==>
        && r.value == ParseAll(content).value
        && Valid() && AtEnd() && Advanced(|content|)
      decreases |input| - pos, 2
    {
      hide ParseOne;
      hide AheadOf;
      hide Body;
      hide Peek;
      hide Behind;
      var xs: seq<Item> := [];
      ghost var whole, done := ParseAll(content), 0;
      assert stack == Bump(stack, 0);
      assert whole.Some? ==> [] + whole.value == whole.value;
      while true
        invariant Valid() && kind == None
        invariant 0 <= done <= |content| && Advanced(done)
        invariant |Window()| == |content| - done
        invariant whole == Prepend(xs, ParseAll(Window()))
        decreases |input| - pos
      {
        ghost var w := Window();
        var x, n := DecodeInterface();
        if x == Err(EOL) {
          return Ok(xs);
        } else if x.Err? {
          ParseAllStuck(w);
          return Err(x.error);
        }
        ParseAllCons(w, x.value, n);
        assert Window() == w[n..];
        PrependSnoc(xs, x.value, ParseAll(Window()));
        BumpBump(old(stack), done, n);
        done := done + n;
        xs := xs + [x.value];
      }
    }
  }

  /** DecodeBytes into an interface: succeeds exactly on canonical encodings, with the encoded item. */
  method DecodeBytes(b: seq<byte>) returns (r: Result<Item, StreamError>)
    requires |b| < TWO64
    ensures forall it :: r == Ok(it) <==> b == Encode(it)
  {
    var s := new Stream(b);
    ghost var n;
    r, n := s.DecodeInterface();
    assert b[0..|b|] == b;
    if r.Ok? && s.pos < |b| {
      r := Err(MoreThanOneValue);
    }
    forall it
      ensures ParseOne(b) == Some((it, [])) <==> b == Encode(it)
    {
      ParseExact(b, it);
    }
  }

  /** DecodeBytes into an unsigned integer: succeeds exactly on the encoding of a number that fits. */
  method DecodeUint(b: seq<byte>, maxbits: nat) returns (r: Result<nat, StreamError>)
    requires |b| < TWO64 && 8 <= maxbits <= 64
    ensures forall v: nat :: r == Ok(v) <==> v < Pow256(maxbits / 8) && b == EncodeString(ToBE(v))
  {
    var s := new Stream(b);
    ghost var n;
    r, n := s.Uint(maxbits);
    assert b[0..|b|] == b;
    if r.Ok? && s.pos < |b| {
      r := Err(MoreThanOneValue);
    }
    forall v: nat
      ensures r == Ok(v) <==> v < Pow256(maxbits / 8) && b == EncodeString(ToBE(v))
    {
      var it := Str(ToBE(v));
      ToBELength(v, maxbits / 8);
      FromToBE(v);
      ParseExact(b, it);
      if r == Ok(v) {
        ToFromBE(ParseOne(b).value.0.s);
      }
    }
  }
}
