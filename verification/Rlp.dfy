/** RLP as the Yellow Paper defines it (Appendix B): items, and their canonical encoding. */
module Rlp {
  import opened Bytes

  datatype Item = Str(s: seq<byte>) | List(items: seq<Item>)

  /** Header of a value with `size` payload bytes. The byte sum wraps as in the source. */
  function Head(small: byte, large: byte, size: nat): (h: seq<byte>)
    ensures h != []
  {
    if size < 56 then [(small + size) % 256]
    else [(large + |ToBE(size)|) % 256] + ToBE(size)
  }

  function StringHead(size: nat): (h: seq<byte>) {
    Head(0x80, 0xB7, size)
  }

  function ListHead(size: nat): (h: seq<byte>) {
    Head(0xC0, 0xF7, size)
  }

  function EncodeString(s: seq<byte>): (b: seq<byte>)
    ensures b != []
  {
    if |s| == 1 && s[0] < 0x80 then s else StringHead(|s|) + s
  }

  function Encode(it: Item): (b: seq<byte>)
    ensures b != []
    decreases it, 0
  {
    match it
    case Str(s) => EncodeString(s)
    case List(items) => var p := EncodeAll(items); ListHead(|p|) + p
  }

  function EncodeAll(items: seq<Item>): (b: seq<byte>)
    decreases items, 1
  {
    if items == [] then [] else Encode(items[0]) + EncodeAll(items[1..])
  }

  lemma {:induction false} EncodeAllAppend(xs: seq<Item>, ys: seq<Item>)
    ensures EncodeAll(xs + ys) == EncodeAll(xs) + EncodeAll(ys)
  {
    if xs == [] {
      assert xs + ys == ys;
    } else {
      hide *;
      var x, rest := xs[0], xs[1..];
      assert xs == [x] + rest && xs + ys == [x] + (rest + ys);
      EncodeAllCons(x, rest);
      EncodeAllCons(x, rest + ys);
      EncodeAllAppend(rest, ys);
    }
  }

  lemma EncodeAllCons(x: Item, xs: seq<Item>)
    ensures EncodeAll([x] + xs) == Encode(x) + EncodeAll(xs)
  {
    hide Encode;
    assert ([x] + xs)[1..] == xs;
  }

  lemma EncodeAllSnoc(xs: seq<Item>, x: Item)
    ensures EncodeAll(xs + [x]) == EncodeAll(xs) + Encode(x)
  {
    EncodeAllAppend(xs, [x]);
    assert EncodeAll([x]) == Encode(x) + EncodeAll([x][1..]);
  }
}
