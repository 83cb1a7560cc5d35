/**
 * Trie nodes as they live in memory and in the database: the collapsed RLP form
 * (proton/trie/hasher.go, node.go), its decoder, and what a node stands for.
 *
 * Hashing is a parameter. It is only ever assumed to be free of collisions on a set of
 * blobs that covers the nodes in play, never on all byte strings.
 */
module TrieNode {
  import opened Bytes
  import opened Rlp
  import opened RlpRaw
  import opened TrieEncoding
  import opened TrieTree

  type Hash = h: seq<byte> | |h| == 32 witness seq(32, _ => 0)

  /** A hash function and the blobs it is applied to. */
  datatype World = World(H: seq<byte> -> Hash, D: iset<seq<byte>>) {

    /** No two blobs in play collide, none hashes to the zero hash, and each is a Go slice. */
    ghost predicate Valid() {
      && (forall x, y :: x in D && y in D && H(x) == H(y) ==> x == y)
      && (forall x :: x in D ==> |x| < TWO64 && H(x) != ZeroHash())
      && [] in D && [0x80] in D
    }
  }

  function ZeroHash(): (h: Hash) {
    seq(32, _ => 0)
  }

  /** Cached hash of a node, and whether it still has to be written. */
  datatype Flag = Flag(hash: Option<Hash>, dirty: bool)

  datatype Node =
    | Nil
    | Val(v: seq<byte>)
    | HashN(h: Hash)
    | Short(key: Hex, val: Node, flag: Flag)
    | Full(children: seq<Node>, flag: Flag)

  // ---- the encoding of a tree ----

  function Compact(k: Hex): (c: seq<byte>) {
    if HexKey(k) then HexToCompact(k) else []
  }

  /** The RLP structure of a node whose children are collapsed. */
  function ItemOf(w: World, t: Tree): (it: Item)
    decreases t, 0
  {
    match t
    case Empty => Str([])
    case Leaf(v) => Str(v)
    case Ext(k, c) => List([Str(Compact(k)), RefItem(w, c)])
    case Branch(subs) => List(RefItems(w, subs))
  }

  function RefItems(w: World, subs: seq<Tree>): (items: seq<Item>)
    ensures |items| == |subs|
    ensures forall i :: 0 <= i < |subs| ==> items[i] == RefItem(w, subs[i])
    decreases subs, 2
  {
    seq(|subs|, i requires 0 <= i < |subs| => RefItem(w, subs[i]))
  }

  /** A child as its parent stores it: nodes of 32 bytes and more are replaced by their hash. */
  function RefItem(w: World, c: Tree): (it: Item)
    decreases c, 1
  {
    var it := ItemOf(w, c);
    if c.Empty? || c.Leaf? || |Encode(it)| < 32 then it else Str(w.H(Encode(it)))
  }

  function Enc(w: World, t: Tree): (b: seq<byte>) {
    Encode(ItemOf(w, t))
  }

  function NodeHash(w: World, t: Tree): (h: Hash) {
    w.H(Enc(w, t))
  }

  predicate Inner(t: Tree) {
    t.Ext? || t.Branch?
  }

  /** Kept as a separate database entry when it has a parent. */
  predicate Large(w: World, t: Tree) {
    Inner(t) && |Enc(w, t)| >= 32
  }

  // ---- decoding ----

  datatype NodeError = EmptyBlob | BadRlp(e: RlpError) | BadCount | Oversized | BadRefSize

  function DecodeNode(hash: Option<Hash>, buf: seq<byte>): (r: Result<Node, NodeError>)
    decreases |buf|, 3
  {
    if buf == [] then Err(EmptyBlob)
    else
      var p := SplitList(buf);
      if p.Err? then Err(BadRlp(p.error))
      else
        var elems := p.value.content;
        var c := Count(elems);
        if c == Ok(2) then DecodeShort(hash, elems)
        else if c == Ok(17) then DecodeFull(hash, elems)
        else Err(BadCount)
  }

  function DecodeShort(hash: Option<Hash>, elems: seq<byte>): (r: Result<Node, NodeError>)
    decreases |elems|, 2
  {
    var k := SplitString(elems);
    if k.Err? then Err(BadRlp(k.error))
    else
      var key := CompactToHex(k.value.content);
      if HasTerm(key) then
        var v := SplitString(k.value.rest);
        if v.Err? then Err(BadRlp(v.error)) else Ok(Short(key, Val(v.value.content), Flag(hash, false)))
      else
        var c := DecodeRef(k.value.rest);
        if c.Err? then Err(c.error) else Ok(Short(key, c.value.0, Flag(hash, false)))
  }

  function DecodeFull(hash: Option<Hash>, elems: seq<byte>): (r: Result<Node, NodeError>)
    decreases |elems|, 2
  {
    var cs := DecodeRefs(elems, 16);
    if cs.Err? then Err(cs.error)
    else
      var v := SplitString(cs.value.1);
      if v.Err? then Err(BadRlp(v.error))
      else
        var last := if v.value.content == [] then Nil else Val(v.value.content);
        Ok(Full(cs.value.0 + [last], Flag(hash, false)))
  }

  /** The loop over the sixteen children. */
  function DecodeRefs(elems: seq<byte>, n: nat): (r: Result<(seq<Node>, seq<byte>), NodeError>)
    ensures r.Ok? ==> |r.value.0| == n && |r.value.1| <= |elems|
    decreases |elems|, 1, n
  {
    if n == 0 then Ok(([], elems))
    else
      var c := DecodeRef(elems);
      if c.Err? then Err(c.error)
      else
        var cs := DecodeRefs(c.value.1, n - 1);
        if cs.Err? then cs else Ok(([c.value.0] + cs.value.0, cs.value.1))
  }

  function DecodeRef(buf: seq<byte>): (r: Result<(Node, seq<byte>), NodeError>)
    ensures r.Ok? ==> |r.value.1| < |buf|
    decreases |buf|, 0, 0
  {
    var p := Split(buf);
    if p.Err? then Err(BadRlp(p.error))
    else
      var Piece(kind, val, rest) := p.value;
      if kind.KList? then
        if |buf| - |rest| > 32 then Err(Oversized)
        else
          var n := DecodeEmbedded(val);
          if n.Err? then Err(n.error) else Ok((n.value, rest))
      else if kind.KString? && |val| == 0 then Ok((Nil, rest))
      else if kind.KString? && |val| == 32 then Ok((HashN(val), rest))
      else Err(BadRefSize)
  }

  /** decodeNode without a hash, on the payload of an embedded list. */
  function DecodeEmbedded(elems: seq<byte>): (r: Result<Node, NodeError>)
    decreases |elems|, 3
  {
    var c := Count(elems);
    if c == Ok(2) then DecodeShort(None, elems)
    else if c == Ok(17) then DecodeFull(None, elems)
    else Err(BadCount)
  }

  /** An embedded reference is decoded by decodeNode on the whole remaining input. */
  lemma EmbeddedIsDecodeNode(buf: seq<byte>)
    requires Split(buf).Ok? && Split(buf).value.kind.KList?
    ensures DecodeNode(None, buf) == DecodeEmbedded(Split(buf).value.content)
  {}

  /** decodeFull as written: a loop that fills the children in place. */
  method DecodeFullLoop(hash: Option<Hash>, elems: seq<byte>) returns (r: Result<Node, NodeError>)
    ensures r == DecodeFull(hash, elems)
  {
    hide DecodeRef;
    var children := new Node[17](_ => Nil);
    var rest := elems;
    PrefixedNil(DecodeRefs(elems, 16));
    for i := 0 to 16
      invariant DecodeRefs(elems, 16) == Prefixed(children[..i], DecodeRefs(rest, 16 - i))
      invariant children[16] == Nil
    {
      var c := DecodeRef(rest);
      if c.Err? {
        return Err(c.error);
      }
      PrefixedSnoc(children[..i], c.value.0, DecodeRefs(c.value.1, 15 - i));
      ghost var before := children[..i];
      children[i], rest := c.value.0, c.value.1;
      assert children[..i + 1] == before + [c.value.0];
    }
    ghost var sixteen := children[..16];
    assert DecodeRefs(elems, 16) == Ok((sixteen, rest)) by {
      assert sixteen + [] == sixteen;
    }
    hide DecodeRefs;
    hide SplitString;
    var v := SplitString(rest);
    if v.Err? {
      return Err(BadRlp(v.error));
    }
    if |v.value.content| > 0 {
      children[16] := Val(v.value.content);
    }
    assert children[..] == sixteen + [children[16]];
    return Ok(Full(children[..], Flag(hash, false)));
  }

  /** Children decoded so far in front of what the rest decodes to. */
  function Prefixed(cs: seq<Node>, r: Result<(seq<Node>, seq<byte>), NodeError>)
    : Result<(seq<Node>, seq<byte>), NodeError>
  {
    if r.Err? then r else Ok((cs + r.value.0, r.value.1))
  }

  lemma PrefixedNil(r: Result<(seq<Node>, seq<byte>), NodeError>)
    ensures Prefixed([], r) == r
  {
    if r.Ok? {
      assert [] + r.value.0 == r.value.0;
    }
  }

  lemma PrefixedSnoc(cs: seq<Node>, c: Node, r: Result<(seq<Node>, seq<byte>), NodeError>)
    ensures Prefixed(cs, Prefixed([c], r)) == Prefixed(cs + [c], r)
  {
    if r.Ok? {
      assert cs + ([c] + r.value.0) == cs + [c] + r.value.0;
    }
  }

  // ---- decoding inverts the encoding ----

  /** The node that decoding a stored tree gives: one level, plus embedded children. */
  function Shallow(w: World, t: Tree, hash: Option<Hash>): (n: Node)
    requires Inner(t)
    decreases t, 0
  {
    match t
    case Ext(k, c) => Short(k, RefNode(w, c), Flag(hash, false))
    case Branch(subs) => Full(RefNodes(w, subs), Flag(hash, false))
  }

  function RefNodes(w: World, subs: seq<Tree>): (ns: seq<Node>)
    ensures |ns| == |subs|
    ensures forall i :: 0 <= i < |subs| ==> ns[i] == RefNode(w, subs[i])
    decreases subs, 2
  {
    seq(|subs|, i requires 0 <= i < |subs| => RefNode(w, subs[i]))
  }

  function RefNode(w: World, c: Tree): (n: Node)
    decreases c, 1
  {
    match c
    case Empty => Nil
    case Leaf(v) => Val(v)
    case _ => if Large(w, c) then HashN(NodeHash(w, c)) else Shallow(w, c, None)
  }

  lemma EncodeTwo(a: Item, b: Item)
    ensures EncodeAll([a, b]) == Encode(a) + (Encode(b) + [])
  {
    assert [a, b][1..] == [b] && [b][1..] == [];
    assert EncodeAll([b]) == Encode(b) + EncodeAll([]);
  }

  lemma EncodeAllAt(items: seq<Item>, i: nat)
    requires i < |items|
    ensures EncodeAll(items[i..]) == Encode(items[i]) + EncodeAll(items[i + 1..])
    ensures |EncodeAll(items[i + 1..])| < |EncodeAll(items[i..])|
  {
    assert items[i..][1..] == items[i + 1..];
  }

  lemma PayloadBound(it: Item)
    ensures |Payload(it)| <= |Encode(it)|
  {}

  /** decodeNode reads back every tree in minimal form from its encoding. */
  lemma DecodeEnc(w: World, t: Tree, hash: Option<Hash>)
    requires Canonical(t) && Inner(t) && |Enc(w, t)| < TWO64
    ensures DecodeNode(hash, Enc(w, t)) == Ok(Shallow(w, t, hash))
  {
    var it := ItemOf(w, t);
    PayloadBound(it);
    SplitEncode(it, []);
    assert Enc(w, t) + [] == Enc(w, t);
    DecodePayload(w, t, hash);
  }

  /** Both kinds of node, on the payload of their list. */
  lemma {:induction false} DecodePayload(w: World, t: Tree, hash: Option<Hash>)
    requires Canonical(t) && Inner(t) && |EncodeAll(ItemOf(w, t).items)| < TWO64
    ensures Count(EncodeAll(ItemOf(w, t).items)) == Ok(if t.Ext? then 2 else 17)
    ensures t.Ext? ==> DecodeShort(hash, EncodeAll(ItemOf(w, t).items)) == Ok(Shallow(w, t, hash))
    ensures t.Branch? ==> DecodeFull(hash, EncodeAll(ItemOf(w, t).items)) == Ok(Shallow(w, t, hash))
    decreases t, 0
  {
    CountEncodeAll(ItemOf(w, t).items);
    if t.Ext? {
      DecodeShortEnc(w, t, hash);
    } else {
      DecodeFullEnc(w, t, hash);
    }
  }

  lemma {:induction false} DecodeShortEnc(w: World, t: Tree, hash: Option<Hash>)
    requires Canonical(t) && t.Ext? && |EncodeAll(ItemOf(w, t).items)| < TWO64
    ensures DecodeShort(hash, EncodeAll(ItemOf(w, t).items)) == Ok(Shallow(w, t, hash))
    decreases t, -1
  {
    var k, ref := Str(Compact(t.key)), RefItem(w, t.sub);
    EncodeTwo(k, ref);
    SplitEncode(k, Encode(ref) + []);
    CompactRoundTrip(t.key);
    if t.sub.Leaf? {
      SplitEncode(ref, []);
    } else {
      DecodeRefEnc(w, t.sub, []);
    }
  }

  lemma {:induction false} DecodeFullEnc(w: World, t: Tree, hash: Option<Hash>)
    requires Canonical(t) && t.Branch? && |EncodeAll(ItemOf(w, t).items)| < TWO64
    ensures DecodeFull(hash, EncodeAll(ItemOf(w, t).items)) == Ok(Shallow(w, t, hash))
    decreases t, -1
  {
    var items := ItemOf(w, t).items;
    LastItem(w, t.subs, items);
    hide Encode;
    hide EncodeAll;
    hide DecodeRefs;
    hide RefItem;
    hide RefItems;
    hide RefNodes;
    hide Split;
    assert items[0..] == items && t.subs[0..16] == t.subs[..16];
    DecodeRefsEnc(w, t.subs, items, 0);
    RefNodesSplit(w, t.subs);
  }

  /** The value slot of a full node. */
  lemma LastItem(w: World, subs: seq<Tree>, items: seq<Item>)
    requires |subs| == |items| == 17 && LeafSlot(subs[16]) && items[16] == RefItem(w, subs[16])
    requires |EncodeAll(items)| < TWO64
    ensures SplitString(EncodeAll(items[16..])) == Split(EncodeAll(items[16..]))
    ensures Split(EncodeAll(items[16..])).Ok?
    ensures RefNode(w, subs[16]) ==
      var v := Split(EncodeAll(items[16..])).value.content; if v == [] then Nil else Val(v)
  {
    SuffixShorter(items, 16);
    EncodeAllAt(items, 16);
    assert items[17..] == [];
    SplitEncode(items[16], []);
    hide Split;
    hide Encode;
  }

  lemma RefNodesSplit(w: World, subs: seq<Tree>)
    requires |subs| == 17
    ensures RefNodes(w, subs) == RefNodes(w, subs[0..16]) + [RefNode(w, subs[16])]
  {
    hide RefNode;
  }

  lemma RefNodesCons(w: World, subs: seq<Tree>)
    requires subs != []
    ensures RefNodes(w, subs) == [RefNode(w, subs[0])] + RefNodes(w, subs[1..])
  {
    hide RefNode;
  }

  /** The children from i on. */
  lemma {:induction false} DecodeRefsEnc(w: World, subs: seq<Tree>, items: seq<Item>, i: nat)
    requires |subs| == |items| == 17 && i <= 16 && |EncodeAll(items)| < TWO64
    requires forall i :: 0 <= i < 16 ==> Canonical(subs[i]) && items[i] == RefItem(w, subs[i])
    ensures DecodeRefs(EncodeAll(items[i..]), 16 - i) == Ok((RefNodes(w, subs[i..16]), EncodeAll(items[16..])))
    decreases subs, 16 - i
  {
    hide Encode;
    hide EncodeAll;
    hide DecodeRef;
    hide RefNode;
    hide RefNodes;
    hide RefItem;
    hide Canonical;
    if i < 16 {
      SuffixShorter(items, i);
      EncodeAllAt(items, i);
      DecodeRefEnc(w, subs[i], EncodeAll(items[i + 1..]));
      DecodeRefsEnc(w, subs, items, i + 1);
      RefNodesCons(w, subs[i..16]);
      assert subs[i..16][1..] == subs[i + 1..16];
    } else {
      assert RefNodes(w, subs[16..16]) == [];
    }
  }

  lemma SuffixShorter(items: seq<Item>, i: nat)
    requires i <= |items|
    ensures |EncodeAll(items[i..])| <= |EncodeAll(items)|
  {
    EncodeAllAppend(items[..i], items[i..]);
    assert items == items[..i] + items[i..];
  }

  /** A child reference in front of any further input. */
  lemma {:induction false} DecodeRefEnc(w: World, c: Tree, rest: seq<byte>)
    requires Canonical(c) && |Encode(RefItem(w, c))| < TWO64
    ensures DecodeRef(Encode(RefItem(w, c)) + rest) == Ok((RefNode(w, c), rest))
    decreases c, 1
  {
    var ref := RefItem(w, c);
    PayloadBound(ref);
    SplitEncode(ref, rest);
    if Inner(c) && !Large(w, c) {
      DecodePayload(w, c, None);
    }
  }
}
