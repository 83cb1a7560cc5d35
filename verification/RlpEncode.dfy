/** The two-pass encoder of rlp/encode.go: string data and list headers are kept apart until the end. */
module RlpEncode {
  import opened Bytes
  import opened Rlp

  /** A list header: where it belongs in the string data, and the size of its payload. */
  datatype Listhead = Listhead(offset: nat, size: nat)

  /** What encoding an item adds to the buffer. */
  datatype Layout = Layout(str: seq<byte>, heads: seq<Listhead>)

  /** The branches of putint: one to eight big-endian bytes. */
  function PutInt(i: nat): (s: seq<byte>) {
    if i < 0x100 then [i]
    else if i < 0x1_0000 then [i / 0x100, i % 0x100]
    else if i < 0x100_0000 then [i / 0x1_0000, i / 0x100 % 0x100, i % 0x100]
    else if i < 0x1_0000_0000 then [i / 0x100_0000, i / 0x1_0000 % 0x100, i / 0x100 % 0x100, i % 0x100]
    else if i < 0x100_0000_0000 then
      [i / 0x1_0000_0000, i / 0x100_0000 % 0x100, i / 0x1_0000 % 0x100, i / 0x100 % 0x100, i % 0x100]
    else if i < 0x1_0000_0000_0000 then
      [i / 0x100_0000_0000, i / 0x1_0000_0000 % 0x100, i / 0x100_0000 % 0x100, i / 0x1_0000 % 0x100, i / 0x100 % 0x100,
       i % 0x100]
    else if i < 0x100_0000_0000_0000 then
      [i / 0x1_0000_0000_0000, i / 0x100_0000_0000 % 0x100, i / 0x1_0000_0000 % 0x100, i / 0x100_0000 % 0x100,
       i / 0x1_0000 % 0x100, i / 0x100 % 0x100, i % 0x100]
    else
      [i / 0x100_0000_0000_0000 % 0x100, i / 0x1_0000_0000_0000 % 0x100, i / 0x100_0000_0000 % 0x100,
       i / 0x1_0000_0000 % 0x100, i / 0x100_0000 % 0x100, i / 0x1_0000 % 0x100, i / 0x100 % 0x100, i % 0x100]
  }

  /** Dropping the last byte of putint is putint of the quotient. */
  lemma PutIntStep(i: nat)
    requires 0x100 <= i < TWO64
    ensures PutInt(i) == PutInt(i / 0x100) + [i % 0x100]
  {
    var q := i / 0x100;
    assert i / 0x1_0000 == q / 0x100;
    assert i / 0x100_0000 == q / 0x1_0000;
    assert i / 0x1_0000_0000 == q / 0x100_0000;
    assert i / 0x100_0000_0000 == q / 0x1_0000_0000;
    assert i / 0x1_0000_0000_0000 == q / 0x100_0000_0000;
    assert i / 0x100_0000_0000_0000 == q / 0x1_0000_0000_0000;
  }

  /** putint writes the shortest big-endian form of every nonzero 64-bit number. */
  lemma {:induction false} PutIntShortest(i: nat)
    requires 0 < i < TWO64
    ensures PutInt(i) == ToBE(i)
  {
    if i >= 0x100 {
      PutIntStep(i);
      hide PutInt;
      PutIntShortest(i / 0x100);
    } else {
      assert ToBE(i / 0x100) == [];
    }
  }

  lemma ZeroNumber()
    ensures EncodeString(ToBE(0)) == [0x80]
  {
    assert ToBE(0) == [];
  }

  lemma ByteNumber(i: nat)
    requires 0 < i < 128
    ensures EncodeString(ToBE(i)) == [i]
  {
    assert ToBE(i / 0x100) == [];
  }

  lemma ShortNumber(i: nat)
    requires 128 <= i < TWO64
    ensures EncodeString(ToBE(i)) == [(0x80 + |PutInt(i)|) % 256] + PutInt(i)
  {
    PutIntShortest(i);
    hide PutInt;
    SizeOfSize(i);
    if i < 0x100 {
      assert ToBE(i / 0x100) == [];
    } else {
      assert |ToBE(i / 0x100)| > 0;
    }
  }

  /** intsize counts bytes by shifting. */
  method IntSize(i: nat) returns (size: nat)
    ensures size == if i == 0 then 1 else |ToBE(i)|
  {
    size := 1;
    var j: nat := i / 0x100;
    while j != 0
      invariant i == 0 ==> j == 0
      invariant size + |ToBE(j)| == if i == 0 then 1 else |ToBE(i)|
      decreases j
    {
      size, j := size + 1, j / 0x100;
    }
  }

  /** The encoder's header for `size` payload bytes, with the wrap-around of byte addition. */
  function PutHead(small: byte, large: byte, size: nat): (h: seq<byte>) {
    if size < 56 then [(small + size) % 256]
    else
      var s := PutInt(size);
      [(large + |s|) % 256] + s
  }

  lemma PutHeadIsHead(small: byte, large: byte, size: nat)
    requires size < TWO64
    ensures PutHead(small, large, size) == Head(small, large, size)
  {
    hide PutInt;
    hide ToBE;
    if size >= 56 {
      PutIntShortest(size);
    }
  }

  function Shift(heads: seq<Listhead>, n: nat): (r: seq<Listhead>)
    ensures |r| == |heads|
  {
    seq(|heads|, i requires 0 <= i < |heads| => Listhead(heads[i].offset + n, heads[i].size))
  }

  function Join(a: Layout, b: Layout): (r: Layout) {
    Layout(a.str + b.str, a.heads + Shift(b.heads, |a.str|))
  }

  /** String data and headers of one item, offsets counted from its start. */
  function Lay(it: Item): (l: Layout)
    decreases it, 0
  {
    match it
    case Str(s) => Layout(EncodeString(s), [])
    case List(items) =>
      var l := LayAll(items);
      Layout(l.str, [Listhead(0, |EncodeAll(items)|)] + l.heads)
  }

  function LayAll(items: seq<Item>): (l: Layout)
    decreases items, 1
  {
    if items == [] then Layout([], []) else Join(Lay(items[0]), LayAll(items[1..]))
  }

  /** Headers lie inside the string data, in order. */
  ghost predicate InOrder(str: seq<byte>, heads: seq<Listhead>, from: nat) {
    && from <= |str|
    && (heads != [] ==> from <= heads[0].offset && InOrder(str, heads[1..], heads[0].offset))
  }

  /** The output from string position `from` on: each header goes in at its offset. */
  ghost function Render(str: seq<byte>, heads: seq<Listhead>, from: nat): (b: seq<byte>)
    requires InOrder(str, heads, from)
    decreases |heads|
  {
    if heads == [] then str[from..]
    else
      assert InOrder(str, heads[1..], heads[0].offset);
      str[from..heads[0].offset] + (ListHead(heads[0].size) + Render(str, heads[1..], heads[0].offset))
  }

  lemma Assoc(a: seq<byte>, b: seq<byte>, c: seq<byte>)
    ensures a + (b + c) == a + b + c
  {}

  /** Sum of the sizes of all encoded list headers. */
  ghost function HeadSum(heads: seq<Listhead>): (n: nat) {
    if heads == [] then 0 else |ListHead(heads[0].size)| + HeadSum(heads[1..])
  }

  lemma {:induction false} RenderLength(str: seq<byte>, heads: seq<Listhead>, from: nat)
    requires InOrder(str, heads, from)
    ensures |Render(str, heads, from)| == |str| - from + HeadSum(heads)
    decreases |heads|
  {
    if heads != [] {
      assert InOrder(str, heads[1..], heads[0].offset);
      RenderLength(str, heads[1..], heads[0].offset);
    }
  }

  lemma {:induction false} HeadSumAppend(a: seq<Listhead>, b: seq<Listhead>)
    ensures HeadSum(a + b) == HeadSum(a) + HeadSum(b)
  {
    if a == [] {
      assert a + b == b;
    } else {
      assert (a + b)[1..] == a[1..] + b;
      HeadSumAppend(a[1..], b);
    }
  }

  lemma {:induction false} HeadSumShift(a: seq<Listhead>, n: nat)
    ensures HeadSum(Shift(a, n)) == HeadSum(a)
  {
    if a != [] {
      assert Shift(a, n)[1..] == Shift(a[1..], n);
      HeadSumShift(a[1..], n);
    }
  }

  lemma ShiftCons(heads: seq<Listhead>, n: nat)
    requires heads != []
    ensures Shift(heads, n)[0] == Listhead(heads[0].offset + n, heads[0].size)
    ensures Shift(heads, n)[1..] == Shift(heads[1..], n)
  {}

  /** Rendering does not care what stands before the starting position. */
  lemma {:induction false} RenderShift(pre: seq<byte>, str: seq<byte>, heads: seq<Listhead>, from: nat)
    requires InOrder(str, heads, from)
    ensures InOrder(pre + str, Shift(heads, |pre|), |pre| + from)
    ensures Render(pre + str, Shift(heads, |pre|), |pre| + from) == Render(str, heads, from)
    decreases |heads|
  {
    hide ListHead;
    if heads == [] {
      assert (pre + str)[|pre| + from..] == str[from..];
    } else {
      ShiftCons(heads, |pre|);
      InOrderEnd(str, heads, from);
      hide Shift;
      var o, s2, h2 := heads[0].offset, pre + str, Shift(heads, |pre|);
      RenderShift(pre, str, heads[1..], o);
      assert InOrder(s2, h2[1..], |pre| + o) && h2[0].offset == |pre| + o;
      assert s2[|pre| + from..|pre| + o] == str[from..o];
      assert Render(s2, h2, |pre| + from) ==
        s2[|pre| + from..|pre| + o] + (ListHead(heads[0].size) + Render(s2, h2[1..], |pre| + o));
    }
  }

  /** Two buffers rendered one after the other. */
  lemma {:induction false} RenderJoin(a: Layout, b: Layout, from: nat)
    requires InOrder(a.str, a.heads, from) && InOrder(b.str, b.heads, 0)
    ensures InOrder(Join(a, b).str, Join(a, b).heads, from)
    ensures Render(Join(a, b).str, Join(a, b).heads, from) == Render(a.str, a.heads, from) + Render(b.str, b.heads, 0)
    decreases |a.heads|
  {
    hide ListHead;
    hide Shift;
    var l := Join(a, b);
    if a.heads == [] {
      RenderShift(a.str, b.str, b.heads, 0);
      assert l.heads == Shift(b.heads, |a.str|);
      RenderSplit(l.str, l.heads, from, |a.str|);
      assert l.str[from..|a.str|] == a.str[from..];
    } else {
      var h, tail := a.heads[0], a.heads[1..];
      InOrderEnd(a.str, a.heads, from);
      RenderJoin(Layout(a.str, tail), b, h.offset);
      assert l.heads[1..] == tail + Shift(b.heads, |a.str|);
      assert l.str[from..h.offset] == a.str[from..h.offset];
      var x, y, z := ListHead(h.size), Render(a.str, tail, h.offset), Render(b.str, b.heads, 0);
      assert Render(l.str, l.heads, from) == a.str[from..h.offset] + (x + (y + z));
      Assoc(x, y, z);
      Assoc(a.str[from..h.offset], x + y, z);
    }
  }

  lemma InOrderEnd(str: seq<byte>, heads: seq<Listhead>, from: nat)
    requires InOrder(str, heads, from)
    ensures heads != [] ==> heads[0].offset <= |str|
  {
    if heads != [] {
      assert InOrder(str, heads[1..], heads[0].offset);
    }
  }

  /** String data before the first header can be rendered on its own. */
  lemma RenderSplit(str: seq<byte>, heads: seq<Listhead>, from: nat, mid: nat)
    requires from <= mid && InOrder(str, heads, mid)
    ensures InOrder(str, heads, from)
    ensures Render(str, heads, from) == str[from..mid] + Render(str, heads, mid)
  {
    hide ListHead;
    if heads == [] {
      assert str[from..] == str[from..mid] + str[mid..];
    } else {
      InOrderEnd(str, heads, mid);
      var o := heads[0].offset;
      assert str[from..o] == str[from..mid] + str[mid..o];
      Assoc(str[from..mid], str[mid..o], ListHead(heads[0].size) + Render(str, heads[1..], o));
    }
  }

  /** The deferred headers end up exactly where the recursive encoding has them. */
  lemma {:induction false} RenderLay(it: Item)
    ensures InOrder(Lay(it).str, Lay(it).heads, 0)
    ensures Render(Lay(it).str, Lay(it).heads, 0) == Encode(it)
    decreases it, 0
  {
    hide ListHead;
    var l := Lay(it);
    if it.List? {
      RenderLayAll(it.items);
      assert l.heads[1..] == LayAll(it.items).heads;
      assert l.str[0..0] == [];
    } else {
      assert l.str[0..] == l.str;
    }
  }

  lemma {:induction false} RenderLayAll(items: seq<Item>)
    ensures InOrder(LayAll(items).str, LayAll(items).heads, 0)
    ensures Render(LayAll(items).str, LayAll(items).heads, 0) == EncodeAll(items)
    decreases items, 1
  {
    if items != [] {
      RenderLay(items[0]);
      RenderLayAll(items[1..]);
      RenderJoin(Lay(items[0]), LayAll(items[1..]), 0);
    }
  }

  lemma LaySize(it: Item)
    ensures |Lay(it).str| + HeadSum(Lay(it).heads) == |Encode(it)|
  {
    RenderLay(it);
    RenderLength(Lay(it).str, Lay(it).heads, 0);
  }

  class Encbuf {
    var str: seq<byte>
    var lheads: seq<Listhead>
    var lhsize: nat

    /** reset */
    constructor ()
      ensures str == [] && lheads == [] && lhsize == 0
    {
      str, lheads, lhsize := [], [], 0;
    }

    /** Everything in the buffer, offsets from its start. */
    ghost function Contents(): (l: Layout)
      reads this
    {
      Layout(str, lheads)
    }

    /** All lists are closed: headers are in place and their sizes are accounted for. */
    ghost predicate Closed()
      reads this
    {
      && InOrder(str, lheads, 0)
      && lhsize == HeadSum(lheads)
      && forall i :: 0 <= i < |lheads| ==> lheads[i].size < TWO64
    }

    function Size(): (n: nat)
      reads this
    {
      |str| + lhsize
    }

    method EncodeStringHeader(size: nat)
      modifies this`str
      ensures size < TWO64 ==> str == old(str) + StringHead(size)
    {
      if size < TWO64 {
        PutHeadIsHead(0x80, 0xB7, size);
      }
      str := str + PutHead(0x80, 0xB7, size);
    }

    method WriteString(b: seq<byte>)
      requires |b| < TWO64
      modifies this`str
      ensures str == old(str) + EncodeString(b)
    {
      if |b| == 1 && b[0] <= 0x7F {
        str := str + [b[0]];
      } else {
        EncodeStringHeader(|b|);
        str := str + b;
      }
    }

    /** writeUint: zero, a single byte, or a short header in front of putint. */
    method WriteUint(i: nat)
      requires i < TWO64
      modifies this`str
      ensures str == old(str) + EncodeString(ToBE(i))
    {
      hide EncodeString;
      hide PutInt;
      hide ToBE;
      if i == 0 {
        ZeroNumber();
        str := str + [0x80];
      } else if i < 128 {
        ByteNumber(i);
        str := str + [i];
      } else {
        ShortNumber(i);
        var s := PutInt(i);
        str := str + ([(0x80 + |s|) % 256] + s);
      }
    }

    /** Opens a list. Until it is closed, the header keeps the header bytes written before it. */
    method List() returns (lh: nat)
      modifies this`lheads
      ensures lh == |old(lheads)|
      ensures lheads == old(lheads) + [Listhead(|str|, lhsize)]
    {
      lh := |lheads|;
      lheads := lheads + [Listhead(|str|, lhsize)];
    }

    /** Closes the list opened as lheads[lh]. */
    method ListEnd(lh: nat)
      requires lh < |lheads|
      requires lheads[lh].offset + lheads[lh].size <= Size()
      requires Size() < TWO64
      modifies this`lheads, this`lhsize
      ensures
        var size := old(Size()) - old(lheads)[lh].offset - old(lheads)[lh].size;
        lheads == old(lheads)[lh := Listhead(old(lheads)[lh].offset, size)] && lhsize == old(lhsize) + |ListHead(size)|
    {
      var size := Size() - lheads[lh].offset - lheads[lh].size;
      lheads := lheads[lh := Listhead(lheads[lh].offset, size)];
      if size < 56 {
        lhsize := lhsize + 1;
      } else {
        var n := IntSize(size);
        lhsize := lhsize + 1 + n;
      }
    }

    /** The writer for nested items: appends the layout of the item, whatever lists are still open. */
    method WriteItem(it: Item)
      requires Size() + |Encode(it)| < TWO64
      modifies this
      ensures Contents() == Join(old(Contents()), Lay(it))
      ensures lhsize == old(lhsize) + HeadSum(Lay(it).heads)
      ensures Size() == old(Size()) + |Encode(it)|
      decreases it, 0
    {
      LaySize(it);
      match it
      case Str(s) =>
        WriteString(s);
        assert lheads == old(lheads) + Shift([], |old(str)|);
      case List(items) =>
        ListLayout(Contents(), items);
        assert |EncodeAll(items)| <= |Encode(it)|;
        hide ListHead;
        hide Shift;
        hide Lay;
        hide LayAll;
        hide Encode;
        hide EncodeAll;
        hide HeadSum;
        var lh := List();
        WriteItems(items);
        ReplaceMiddle(old(lheads), Listhead(|old(str)|, old(lhsize)), Shift(LayAll(items).heads, |old(str)|),
          Listhead(|old(str)|, |EncodeAll(items)|));
        ListEnd(lh);
    }

    lemma ReplaceMiddle(a: seq<Listhead>, h: Listhead, b: seq<Listhead>, h': Listhead)
      ensures (a + [h] + b)[|a|] == h
      ensures (a + [h] + b)[|a| := h'] == a + [h'] + b
    {}

    method WriteItems(items: seq<Item>)
      requires Size() + |EncodeAll(items)| < TWO64
      modifies this
      ensures Contents() == Join(old(Contents()), LayAll(items))
      ensures lhsize == old(lhsize) + HeadSum(LayAll(items).heads)
      ensures Size() == old(Size()) + |EncodeAll(items)|
      decreases items, 1
    {
      hide Join;
      hide Lay;
      hide LayAll;
      hide Encode;
      hide EncodeAll;
      hide HeadSum;
      LayNone(Contents());
      assert items[..0] == [];
      for i := 0 to |items|
        invariant Contents() == Join(old(Contents()), LayAll(items[..i]))
        invariant lhsize == old(lhsize) + HeadSum(LayAll(items[..i]).heads)
        invariant Size() == old(Size()) + |EncodeAll(items[..i])|
      {
        LaySnoc(old(Contents()), items, i);
        EncodeNext(items, i);
        WriteItem(items[i]);
      }
      assert items[..|items|] == items;
    }

    static lemma LayNone(base: Layout)
      ensures Join(base, LayAll([])) == base
      ensures HeadSum(LayAll([]).heads) == 0 && EncodeAll([]) == []
    {}

    static lemma EncodeNext(items: seq<Item>, i: nat)
      requires i < |items|
      ensures |EncodeAll(items[..i + 1])| == |EncodeAll(items[..i])| + |Encode(items[i])| <= |EncodeAll(items)|
    {
      assert items[..i + 1] == items[..i] + [items[i]];
      EncodeAllSnoc(items[..i], items[i]);
      assert items == items[..i + 1] + items[i + 1..];
      EncodeAllAppend(items[..i + 1], items[i + 1..]);
    }

    lemma LaySnoc(base: Layout, items: seq<Item>, i: nat)
      requires i < |items|
      ensures Join(Join(base, LayAll(items[..i])), Lay(items[i])) == Join(base, LayAll(items[..i + 1]))
      ensures HeadSum(LayAll(items[..i + 1]).heads) == HeadSum(LayAll(items[..i]).heads) + HeadSum(Lay(items[i]).heads)
    {
      var a, b := LayAll(items[..i]), Lay(items[i]);
      LayAllAppend(items[..i], items[i]);
      assert items[..i + 1] == items[..i] + [items[i]];
      JoinAssoc(base, a, b);
      HeadSumAppend(a.heads, Shift(b.heads, |a.str|));
      HeadSumShift(b.heads, |a.str|);
    }

    /** The header of a list goes in front of those of its elements. */
    lemma ListLayout(base: Layout, items: seq<Item>)
      ensures
        var h := Listhead(|base.str|, |EncodeAll(items)|);
        Join(base, Lay(Item.List(items))) ==
        Layout(base.str + LayAll(items).str, base.heads + [h] + Shift(LayAll(items).heads, |base.str|))
      ensures HeadSum(Lay(Item.List(items)).heads) == |ListHead(|EncodeAll(items)|)| + HeadSum(LayAll(items).heads)
    {
      var l := LayAll(items);
      var h := Listhead(|base.str|, |EncodeAll(items)|);
      assert Shift(Lay(Item.List(items)).heads, |base.str|) == [h] + Shift(l.heads, |base.str|);
      assert Lay(Item.List(items)).heads[1..] == l.heads;
      assert base.heads + ([h] + Shift(l.heads, |base.str|)) == base.heads + [h] + Shift(l.heads, |base.str|);
    }

    /** The second pass: string data and headers are merged into a buffer of exactly size() bytes. */
    method ToBytes() returns (out: array<byte>)
      requires Closed()
      ensures fresh(out) && out.Length == Size()
      ensures out[..] == Render(str, lheads, 0)
    {
      RenderLength(str, lheads, 0);
      hide ListHead;
      hide PutHead;
      out := new byte[Size()](_ => 0);
      var strpos: nat, pos: nat := 0, 0;
      assert out[..0] + Render(str, lheads, 0) == Render(str, lheads, 0);
      for i := 0 to |lheads|
        invariant InOrder(str, lheads[i..], strpos)
        invariant 0 <= pos <= out.Length
        invariant out[..pos] + Render(str, lheads[i..], strpos) == Render(str, lheads, 0)
        invariant fresh(out)
      {
        var head := lheads[i];
        RenderHead(out[..pos], str, lheads[i..], strpos);
        assert lheads[i..][1..] == lheads[i + 1..];
        pos := CopyInto(out, pos, str[strpos..head.offset]);
        strpos := head.offset;
        PutHeadIsHead(0xC0, 0xF7, head.size);
        pos := CopyInto(out, pos, PutHead(0xC0, 0xF7, head.size));
      }
      pos := CopyInto(out, pos, str[strpos..]);
    }

    /** The second pass into a writer: it gets the encoding, or as much of it as it takes before failing. */
    method ToWriter(out: Writer) returns (ok: bool)
      requires Closed()
      modifies out
      ensures ok <==> old(out.room) >= Size()
      ensures out.got == old(out.got) + Took(Render(str, lheads, 0), old(out.room))
    {
      hide Took;
      hide ListHead;
      hide PutHead;
      hide Render;
      hide InOrder;
      hide HeadSum;
      RenderLength(str, lheads, 0);
      assert lheads[0..] == lheads;
      ghost var all := Render(str, lheads, 0);
      ghost var done: seq<byte> := [];
      ghost var got, room := out.got, out.room;
      var strpos: nat := 0;
      WriteStart(got, all, room);
      for i := 0 to |lheads|
        invariant InOrder(str, lheads[i..], strpos)
        invariant done + Render(str, lheads[i..], strpos) == all
        invariant out.Taken(got, room, done)
      {
        var head := lheads[i];
        RenderHead(done, str, lheads[i..], strpos);
        assert lheads[i..][1..] == lheads[i + 1..];
        ghost var piece, header, rest := str[strpos..head.offset], ListHead(head.size),
          Render(str, lheads[i + 1..], head.offset);
        WriteParts(done, piece, header, rest);
        if head.offset - strpos > 0 {
          var n;
          n, ok := out.Write(str[strpos..head.offset], got, room, done, all);
          strpos := strpos + n;
          if !ok {
            return;
          }
        }
        PutListHead(head.size);
        var _, okHead := out.Write(PutHead(0xC0, 0xF7, head.size), got, room, done + piece, all);
        ok := okHead;
        if !ok {
          return;
        }
        done := done + piece + header;
      }
      ok := true;
      RenderTail(str, lheads[|lheads|..], strpos, done);
      if strpos < |str| {
        var _, okTail := out.Write(str[strpos..], got, room, done, all);
        ok := okTail;
      }
      if ok {
        WriteEnd(got, all, room);
      }
    }
  }

  /** What a writer with the given room takes. */
  function Took(all: seq<byte>, room: nat): (b: seq<byte>) {
    if room < |all| then all[..room] else all
  }

  /** A writer that takes a number of bytes and then fails; a short write is reported as an error. */
  class Writer {
    var got: seq<byte>
    var room: nat

    ghost predicate Taken(got0: seq<byte>, room0: nat, done: seq<byte>)
      reads this
    {
      got == got0 + done && room + |done| == room0
    }

    method Write(p: seq<byte>, ghost got0: seq<byte>, ghost room0: nat, ghost done: seq<byte>, ghost all: seq<byte>)
      returns (n: nat, ok: bool)
      requires Taken(got0, room0, done) && done + p <= all
      modifies this
      ensures ok ==> n == |p| && Taken(got0, room0, done + p)
      ensures !ok ==> room0 < |all| && got == got0 + Took(all, room0)
    {
      n := if |p| <= room then |p| else room;
      ok := n == |p|;
      WriteMore(all, got0, done, p, n);
      got, room := got + p[..n], room - n;
    }
  }

  lemma RenderTail(str: seq<byte>, heads: seq<Listhead>, from: nat, done: seq<byte>)
    requires heads == [] && InOrder(str, heads, from)
    ensures from <= |str| && Render(str, heads, from) == str[from..]
    ensures from == |str| ==> done + str[from..] == done
  {}

  lemma PutListHead(size: nat)
    requires size < TWO64
    ensures PutHead(0xC0, 0xF7, size) == ListHead(size)
  {
    PutHeadIsHead(0xC0, 0xF7, size);
  }

  lemma WriteStart(got: seq<byte>, all: seq<byte>, room: nat)
    ensures got == got + [] && [] + all == all
  {}

  lemma WriteEnd(got: seq<byte>, all: seq<byte>, room: nat)
    ensures |all| <= room ==> Took(all, room) == all
  {}

  lemma WriteParts(done: seq<byte>, piece: seq<byte>, header: seq<byte>, rest: seq<byte>)
    ensures done + piece <= done + piece + header + rest && done + piece + header <= done + piece + header + rest
    ensures piece == [] ==> done + piece == done
  {}

  /** n bytes of a piece follow what has been written; if that is all of it, the piece has been written. */
  lemma WriteMore(all: seq<byte>, before: seq<byte>, done: seq<byte>, piece: seq<byte>, n: nat)
    requires done + piece <= all && n <= |piece|
    ensures before + done + piece[..n] == before + all[..|done| + n]
    ensures before + done + piece == before + (done + piece) && piece[..|piece|] == piece
  {
    assert all[..|done| + n] == (done + piece)[..|done| + n] == done + piece[..n];
  }

  /** One round of the second pass: string data up to the next header, then the header. */
  lemma RenderHead(done: seq<byte>, str: seq<byte>, heads: seq<Listhead>, from: nat)
    requires InOrder(str, heads, from) && heads != []
    ensures from <= heads[0].offset <= |str| && InOrder(str, heads[1..], heads[0].offset)
    ensures
      done + Render(str, heads, from) ==
      done + str[from..heads[0].offset] + ListHead(heads[0].size) + Render(str, heads[1..], heads[0].offset)
  {
    hide ListHead;
    InOrderEnd(str, heads, from);
    var x, y, z := str[from..heads[0].offset], ListHead(heads[0].size), Render(str, heads[1..], heads[0].offset);
    Assoc(done, x, y + z);
    Assoc(done + x, y, z);
  }

  /** copy(out[pos:], piece) where the piece fits. */
  method CopyInto(out: array<byte>, pos: nat, piece: seq<byte>) returns (end: nat)
    requires pos + |piece| <= out.Length
    modifies out
    ensures end == pos + |piece|
    ensures out[..end] == old(out[..pos]) + piece
  {
    end := pos + |piece|;
    forall i | 0 <= i < |piece| {
      out[pos + i] := piece[i];
    }
  }

  lemma JoinAssoc(a: Layout, b: Layout, c: Layout)
    ensures Join(Join(a, b), c) == Join(a, Join(b, c))
  {
    assert a.str + b.str + c.str == a.str + (b.str + c.str);
    assert Join(Join(a, b), c).heads == Join(a, Join(b, c)).heads;
  }

  lemma {:induction false} LayAllAppend(xs: seq<Item>, x: Item)
    ensures LayAll(xs + [x]) == Join(LayAll(xs), Lay(x))
  {
    if xs == [] {
      assert xs + [x] == [x];
      assert LayAll([x]) == Join(Lay(x), LayAll([x][1..]));
      assert Join(Lay(x), Layout([], [])) == Lay(x);
      assert Join(Layout([], []), Lay(x)) == Lay(x);
    } else {
      assert (xs + [x])[1..] == xs[1..] + [x];
      LayAllAppend(xs[1..], x);
      JoinAssoc(Lay(xs[0]), LayAll(xs[1..]), Lay(x));
    }
  }

  /** No header announces more than the encoding holds. */
  lemma {:induction false} LayHeads(it: Item)
    ensures forall h :: h in Lay(it).heads ==> h.size <= |Encode(it)|
    decreases it, 0
  {
    if it.List? {
      LayAllHeads(it.items);
    }
  }

  lemma {:induction false} LayAllHeads(items: seq<Item>)
    ensures forall h :: h in LayAll(items).heads ==> h.size <= |EncodeAll(items)|
    decreases items, 1
  {
    if items != [] {
      LayHeads(items[0]);
      LayAllHeads(items[1..]);
      var a, b := Lay(items[0]), LayAll(items[1..]);
      forall h | h in LayAll(items).heads
        ensures h.size <= |EncodeAll(items)|
      {
        if h !in a.heads {
          var i :| 0 <= i < |b.heads| && h == Shift(b.heads, |a.str|)[i];
          assert b.heads[i] in b.heads;
        }
      }
    }
  }

  /** encbuf.encode on a fresh buffer: all lists are closed, and rendering gives the canonical encoding. */
  method EncodeFresh(it: Item) returns (w: Encbuf)
    requires |Encode(it)| < TWO64
    ensures fresh(w) && w.Closed()
    ensures Render(w.str, w.lheads, 0) == Encode(it) && w.Size() == |Encode(it)|
  {
    w := new Encbuf();
    w.WriteItem(it);
    assert Join(Layout([], []), Lay(it)) == Lay(it);
    RenderLay(it);
    LayHeads(it);
  }

  /** EncodeToBytes: the two passes together produce the canonical encoding. */
  method EncodeToBytes(it: Item) returns (out: seq<byte>)
    requires |Encode(it)| < TWO64
    ensures out == Encode(it)
  {
    var w := EncodeFresh(it);
    var b := w.ToBytes();
    out := b[..];
  }

  /** encReader: hands out the merged output piece by piece. */
  class EncReader {
    var buf: Encbuf?
    var lhpos: nat
    var strpos: nat
    var piece: Option<seq<byte>>

    constructor (w: Encbuf)
      requires w.Closed()
      ensures Valid() && buf == w
      ensures Pending() == Render(w.str, w.lheads, 0)
    {
      buf, lhpos, strpos, piece := w, 0, 0, None;
      assert w.lheads[0..] == w.lheads;
    }

    ghost predicate Valid()
      reads this, buf
    {
      && (piece.Some? ==> piece.value != [])
      && (buf != null ==>
          && lhpos <= |buf.lheads|
          && InOrder(buf.str, buf.lheads[lhpos..], strpos)
          && forall i :: 0 <= i < |buf.lheads| ==> buf.lheads[i].size < TWO64)
    }

    /** What lies behind the current piece. */
    ghost function Rest(): (b: seq<byte>)
      requires Valid()
      reads this, buf
    {
      if buf == null then [] else Render(buf.str, buf.lheads[lhpos..], strpos)
    }

    /** Everything still to be read. */
    ghost function Pending(): (b: seq<byte>)
      requires Valid()
      reads this, buf
    {
      if buf == null then [] else if piece.Some? then piece.value + Rest() else Rest()
    }

    /** The next piece: the unfinished one, string data before a header, a header, or the tail. */
    method Next() returns (p: Option<seq<byte>>)
      requires Valid()
      modifies this`lhpos, this`strpos
      ensures Valid()
      ensures p.None? ==> old(Pending()) == [] && Pending() == []
      ensures p.Some? ==> buf != null && p.value != [] && old(Pending()) == p.value + Rest()
    {
      hide Head;
      hide PutHead;
      if buf == null {
        return None;
      } else if piece.Some? {
        return piece;
      } else if lhpos < |buf.lheads| {
        var head := buf.lheads[lhpos];
        ghost var heads := buf.lheads[lhpos..];
        RenderHead([], buf.str, heads, strpos);
        assert heads[1..] == buf.lheads[lhpos + 1..];
        if head.offset > strpos {
          p := Some(buf.str[strpos..head.offset]);
          RenderSplit(buf.str, heads, strpos, head.offset);
          strpos := head.offset;
          assert old(Pending()) == p.value + Rest();
        } else {
          assert buf.str[strpos..head.offset] == [];
          assert [] + (ListHead(head.size) + Render(buf.str, heads[1..], head.offset)) == Pending();
          lhpos := lhpos + 1;
          PutHeadIsHead(0xC0, 0xF7, head.size);
          p := Some(PutHead(0xC0, 0xF7, head.size));
        }
      } else if strpos < |buf.str| {
        p := Some(buf.str[strpos..]);
        assert buf.lheads[lhpos..] == [];
        strpos := |buf.str|;
        assert buf.str[strpos..] == [] && p.value + [] == p.value;
      } else {
        return None;
      }
    }

    /** Fills b from the pending output; reports the end exactly when nothing was left to fit. */
    method Read(b: array<byte>) returns (n: nat, eof: bool)
      requires Valid()
      modifies this, b
      ensures Valid()
      ensures n == if |old(Pending())| <= b.Length then |old(Pending())| else b.Length
      ensures eof <==> |old(Pending())| <= b.Length
      ensures b[..n] == old(Pending())[..n]
      ensures Pending() == old(Pending())[n..]
    {
      hide Render;
      n := 0;
      ghost var all := Pending();
      while true
        invariant Valid() && buf == old(buf)
        invariant n <= b.Length && n <= |all|
        invariant b[..n] == all[..n] && Pending() == all[n..]
        decreases |all| - n
      {
        var p := Next();
        piece := p;
        if p.None? {
          buf := null;
          return n, true;
        }
        ghost var rest := Rest();
        var nn := if |p.value| <= b.Length - n then |p.value| else b.Length - n;
        TakeFrom(all, n, p.value, rest, nn);
        n := CopyInto(b, n, p.value[..nn]);
        if nn < |p.value| {
          piece := Some(p.value[nn..]);
          return n, false;
        }
        piece := None;
      }
    }
  }

  /** nn bytes of the piece p move from what is pending to what has been read. */
  lemma TakeFrom(all: seq<byte>, n: nat, p: seq<byte>, rest: seq<byte>, nn: nat)
    requires n <= |all| && all[n..] == p + rest && nn <= |p|
    ensures n + nn <= |all|
    ensures all[..n] + p[..nn] == all[..n + nn]
    ensures all[n + nn..] == p[nn..] + rest
  {
    assert |all| - n == |p| + |rest|;
    forall i | 0 <= i < nn
      ensures all[n + i] == p[i]
    {
      assert all[n..][i] == (p + rest)[i];
    }
    assert all[n + nn..] == all[n..][nn..];
  }

  function Sum(sizes: seq<nat>): (n: nat) {
    if sizes == [] then 0 else sizes[0] + Sum(sizes[1..])
  }

  /** Reads with buffers of any sizes, one after the other, deliver the output in order without loss. */
  method ReadWithSizes(r: EncReader, sizes: seq<nat>) returns (out: seq<byte>)
    requires r.Valid()
    modifies r
    ensures r.Valid()
    ensures out + r.Pending() == old(r.Pending())
    ensures |out| == if Sum(sizes) <= |old(r.Pending())| then Sum(sizes) else |old(r.Pending())|
  {
    if sizes == [] {
      out := [];
    } else {
      var b := new byte[sizes[0]](_ => 0);
      var n, eof := r.Read(b);
      var more := ReadWithSizes(r, sizes[1..]);
      out := b[..n] + more;
      Assoc(b[..n], more, r.Pending());
    }
  }

  /** EncodeToReader, read through buffers of any sizes, yields the encoding from its start. */
  method EncodeAndRead(it: Item, sizes: seq<nat>) returns (out: seq<byte>)
    requires |Encode(it)| < TWO64
    ensures out == Encode(it)[..if Sum(sizes) <= |Encode(it)| then Sum(sizes) else |Encode(it)|]
  {
    var w := EncodeFresh(it);
    var r := new EncReader(w);
    out := ReadWithSizes(r, sizes);
    assert out == (out + r.Pending())[..|out|];
  }

  /** Encode to a writer: it receives the canonical encoding, or its beginning if it fails. */
  method EncodeTo(out: Writer, it: Item) returns (ok: bool)
    requires |Encode(it)| < TWO64
    modifies out
    ensures ok <==> |Encode(it)| <= old(out.room)
    ensures out.got == old(out.got) + Took(Encode(it), old(out.room))
  {
    var w := EncodeFresh(it);
    ok := w.ToWriter(out);
  }
}
