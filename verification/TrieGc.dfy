/**
 * The operations of the trie write cache (proton/trie/database.go): insert, reference,
 * dereference, Cap and Commit, each proved to keep the invariant of TrieDatabase.
 */
module TrieGc {
  import opened Bytes
  import opened TrieDatabase

  /** No counter has dropped to zero without its node being deleted; what is left refers to what it did. */
  ghost predicate NoLeak<K(!new)>(d: Dirties<K>, order: seq<K>, d': Dirties<K>, order': seq<K>) {
    forall h :: h in order' ==> h in order && (h in d && h in d' ==>
      d'[h].kids == d[h].kids && d'[h].children == d[h].children && (d'[h].parents == 0 ==> d[h].parents == 0))
  }

  /** Nodes being torn down stay as they are, and so do the links of the meta-root. */
  ghost predicate Untouched<K(!new)>(zero: K, d: Dirties<K>, d': Dirties<K>, dying: seq<K>) {
    && zero in d && zero in d' && d'[zero].children == d[zero].children
    && forall h :: h in dying ==> h in d && h in d' && d'[h] == d[h]
  }

  lemma TakeOne<K(!new)>(owed: multiset<K>, cs: seq<K>, i: nat)
    requires i < |cs|
    ensures (owed + multiset(cs[i..])) - multiset{cs[i]} == owed + multiset(cs[i + 1..])
    ensures (owed + multiset(cs[i..]))[cs[i]] > 0
  {
    assert cs[i..] == [cs[i]] + cs[i + 1..];
  }

  /** The invariant together with the byte accounting. */
  ghost predicate Good<K(!new)>(u: Universe<K>, s: Cache<K>, size: Sizes, dying: seq<K>, owed: multiset<K>) {
    Inv(u, s, dying, owed) && size == Weight(u.zero, s.d, s.order, dying)
  }

  lemma Gone<K(!new)>(u: Universe<K>, s: Cache<K>, size: Sizes, dying: seq<K>, owed: multiset<K>, h: K)
    requires Good(u, s, size, dying, owed) && h !in s.d
    ensures Good(u, s, size, dying, owed - multiset{h})
  {
    hide Chain;
    hide Refs;
    hide Genuine;
    hide Placed;
    hide Closed;
    hide Weight;
  }

  /**
   * A dirty node that is not being torn down is on the list; off the disk and without parents, nothing
   * refers to it.
   */
  lemma Listed<K(!new)>(u: Universe<K>, s: Cache<K>, size: Sizes, dying: seq<K>, owed: multiset<K>, h: K)
    returns (i: nat)
    requires Good(u, s, size, dying, owed) && h in s.d && h != u.zero && h !in dying
    ensures i < |s.order| && s.order[i] == h && GenuineNode(u, h, s.d[h])
    ensures s.d[h].parents == 0 ==> h in s.disk || Refs(u.zero, s.d, s.order, h) == 0
  {
    hide Refs;
    hide Placed;
    hide Closed;
    hide Rooted;
    hide Weight;
    hide GenuineNode;
    i :| 0 <= i < |s.order| && s.order[i] == h;
    ChainFacts(u.zero, s.d, s.order, s.oldest, s.newest);
    Unreferenced(u.zero, s.d, s.order, h);
  }

  lemma ReleaseOne<K(!new)>(u: Universe<K>, s: Cache<K>, size: Sizes, dying: seq<K>, owed: multiset<K>, h: K)
    requires Good(u, s, size, dying, owed) && h in s.d && h != u.zero && h !in dying
    requires owed[h] > 0 || h in s.disk || s.d[h].parents == 0
    ensures Good(u, s.(d := Decremented(s.d, h)), size, dying, owed - multiset{h})
    ensures Untouched(u.zero, s.d, Decremented(s.d, h), dying)
    ensures Decremented(s.d, h)[h].parents > 0 ==> NoLeak(s.d, s.order, Decremented(s.d, h), s.order)
    ensures s.d[h].parents == 0 ==> NoLeak(s.d, s.order, Decremented(s.d, h), s.order)
  {
    hide Chain;
    hide Placed;
    hide Refs;
    hide Closed;
    hide Genuine;
    hide Rooted;
    hide Counted;
    Decrement(u, s, dying, owed, h);
    ChainFacts(u.zero, s.d, s.order, s.oldest, s.newest);
    WeightSame(u.zero, s.d, Decremented(s.d, h), s.order, dying);
  }

  /** Off the list, with its children owed. */
  lemma Unhook<K(!new)>(u: Universe<K>, s: Cache<K>, size: Sizes, dying: seq<K>, owed: multiset<K>, i: nat,
                        ch: multiset<K>)
    requires Good(u, s, size, dying, owed) && i < |s.order| && s.order[i] in s.d
    requires s.order[i] in s.disk || Refs(u.zero, s.d, s.order, s.order[i]) == 0
    requires forall c :: ch[c] == Cnt(s.d[s.order[i]], c)
    ensures var h := s.order[i]; s.d[h].flushNext in s.d && (h != s.oldest ==> s.d[h].flushPrev in s.d)
    ensures
      var (d', o', n') := Unlink(u.zero, s.d, s.oldest, s.newest, s.order[i]);
      && Good(u, s.(d := d', order := Drop(s.order, i), oldest := o', newest := n'), size, dying + [s.order[i]],
              owed + ch)
      && Untouched(u.zero, s.d, d', dying)
      && NoLeak(s.d, s.order, d', Drop(s.order, i))
      && s.order[i] in d' && SameNode(s.d[s.order[i]], d'[s.order[i]])
  {
    hide Chain;
    hide Placed;
    hide Refs;
    hide Cnt;
    hide Closed;
    hide Genuine;
    hide Rooted;
    hide Counted;
    hide Unlink;
    hide Weight;
    hide Distinct;
    ChainFacts(u.zero, s.d, s.order, s.oldest, s.newest);
    Detach(u, s, dying, owed, i, ch);
    DropMembers(s.order, i);
    var (d', o', n') := Unlink(u.zero, s.d, s.oldest, s.newest, s.order[i]);
    WeightMove(u.zero, d', s.order, dying, i);
    WeightSame(u.zero, s.d, d', s.order, dying);
  }

  lemma LoseLink<K(!new)>(u: Universe<K>, s: Cache<K>, size: Sizes, dying: seq<K>, owed: multiset<K>, p: K, c: K)
    requires Good(u, s, size, dying, owed) && p in dying && p in s.d
    ensures
      var d' := s.d[p := Unlinked(s.d[p], c)];
      && Good(u, s.(d := d'), Remapped(size, LinkBytes(s.d[p]), LinkBytes(d'[p])), dying, owed)
      && NoLeak(s.d, s.order, d', s.order)
  {
    hide Chain;
    hide Placed;
    hide Refs;
    hide Cnt;
    hide Closed;
    hide Genuine;
    hide Rooted;
    hide Counted;
    hide LinkBytes;
    hide Distinct;
    UnlinkDying(u, s, dying, owed, p, c);
    ChainFacts(u.zero, s.d, s.order, s.oldest, s.newest);
    WeightOne(u.zero, s.d, s.order, dying, p, Unlinked(s.d[p], c));
  }

  lemma SumChange<K(!new)>(f: K -> int, g: K -> int, s: seq<K>, i: nat)
    requires i < |s| && forall x :: x in Drop(s, i) ==> g(x) == f(x)
    ensures Sum(g, s) == Sum(f, s) - f(s[i]) + g(s[i])
  {
    SumDrop(f, s, i);
    SumDrop(g, s, i);
    SumSame(f, g, Drop(s, i));
  }

  lemma WeightOne<K(!new)>(zero: K, d: Dirties<K>, order: seq<K>, dying: seq<K>, p: K, e: CachedNode<K>)
    requires Keyed(zero, d, order, dying) && p in dying && p in d && e.size == d[p].size
    ensures Weight(zero, d[p := e], order, dying) ==
      Remapped(Weight(zero, d, order, dying), LinkBytes(d[p]), LinkBytes(e))
  {
    hide LinkBytes;
    var d' := d[p := e];
    var i :| 0 <= i < |dying| && dying[i] == p;
    DropMembers(dying, i);
    SumChange(NodeBytes(d), NodeBytes(d'), dying, i);
    SumChange(MapBytesOf(d), MapBytesOf(d'), dying, i);
    SumSame(NodeBytes(d), NodeBytes(d'), order);
    SumSame(MapBytesOf(d), MapBytesOf(d'), order);
  }

  lemma LoseRoot<K(!new)>(u: Universe<K>, s: Cache<K>, size: Sizes, c: K)
    requires Good(u, s, size, [], multiset{})
    ensures u.zero in s.d
    ensures
      var d' := s.d[u.zero := Unlinked(s.d[u.zero], c)];
      var owed := if Cnt(s.d[u.zero], c) > 0 then multiset{c} else multiset{};
      && Good(u, s.(d := d'), Remapped(size, LinkBytes(s.d[u.zero]), LinkBytes(d'[u.zero])), [], owed)
      && NoLeak(s.d, s.order, d', s.order)
  {
    hide Chain;
    hide Placed;
    hide Refs;
    hide Closed;
    hide Genuine;
    hide Rooted;
    hide Counted;
    hide Distinct;
    UnlinkMeta(u, s, c);
    ChainFacts(u.zero, s.d, s.order, s.oldest, s.newest);
    var d' := s.d[u.zero := Unlinked(s.d[u.zero], c)];
    SumSame(NodeBytes(s.d), NodeBytes(d'), s.order);
    SumSame(MapBytesOf(s.d), MapBytesOf(d'), s.order);
  }

  lemma Delete<K(!new)>(u: Universe<K>, s: Cache<K>, size: Sizes, dying: seq<K>, owed: multiset<K>, h: K)
    requires Good(u, s, size, dying + [h], owed)
    ensures h in s.d && Good(u, s.(d := s.d - {h}), Without(size, s.d[h]), dying, owed)
    ensures Untouched(u.zero, s.d, s.d - {h}, dying) && NoLeak(s.d, s.order, s.d - {h}, s.order)
  {
    hide Placed;
    hide Refs;
    hide Closed;
    hide Genuine;
    hide Rooted;
    hide Counted;
    hide LinkBytes;
    hide Weight;
    hide Forward;
    hide Backward;
    Bury(u, s, dying, owed, h);
    BuryKeys(u.zero, s.d, s.order, dying, h);
    assert h in dying + [h];
    WeightBury(u.zero, s.d, s.order, dying, h);
  }

  lemma NoLeakSelf<K(!new)>(d: Dirties<K>, order: seq<K>)
    ensures NoLeak(d, order, d, order)
  {}

  lemma NoLeakTrans<K(!new)>(a: Dirties<K>, oa: seq<K>, b: Dirties<K>, ob: seq<K>, c: Dirties<K>, oc: seq<K>)
    requires NoLeak(a, oa, b, ob) && NoLeak(b, ob, c, oc) && forall h :: h in ob ==> h in b
    ensures NoLeak(a, oa, c, oc)
  {}

  lemma NoLeakGone<K(!new)>(a: Dirties<K>, b: Dirties<K>, ob: seq<K>, c: Dirties<K>, oc: seq<K>, h: K)
    requires NoLeak(b, ob, c, oc) && h !in oc && h in a && b == Decremented(a, h)
    ensures NoLeak(a, ob, c, oc)
  {}

  /** The links a node being torn down still has are among the children still to be visited. */
  ghost predicate LinksLeft<K(!new)>(e: CachedNode<K>, cs: seq<K>, some: bool) {
    && e.children.Some? == some
    && (some ==> forall c :: c in e.children.value ==> e.children.value[c] == 1 && c in cs)
  }

  lemma NoLinks<K(!new)>(e: CachedNode<K>, some: bool)
    requires LinksLeft(e, [], some)
    ensures LinkBytes(e) == if some then CHILDREN_SIZE else 0
  {
    if some {
      assert e.children.value == map[];
    }
  }

  /** A list of a node's children: each external one once, each embedded one as often as it occurs. */
  ghost predicate ChildList<K(!new)>(e: CachedNode<K>, cs: seq<K>) {
    forall c :: multiset(cs)[c] ==
      multiset(e.kids)[c] + if e.children.Some? && c in e.children.value then 1 else 0
  }

  lemma ChildrenBelow<K(!new)>(u: Universe<K>, h: K, e: CachedNode<K>, cs: seq<K>)
    requires u.Valid() && GenuineNode(u, h, e) && ChildList(e, cs)
    ensures forall c :: multiset(cs)[c] == Cnt(e, c)
    ensures forall c :: c in cs ==> c != u.zero && u.rank(c) < u.rank(h)
    ensures LinksLeft(e, cs, e.children.Some?)
  {
    forall c | c in cs
      ensures c != u.zero && u.rank(c) < u.rank(h)
    {
      ChildBelow(u, h, e, cs, c);
    }
    forall c
      ensures multiset(cs)[c] == Cnt(e, c)
    {
      assert multiset(cs)[c] == multiset(e.kids)[c] + if e.children.Some? && c in e.children.value then 1 else 0;
    }
    if e.children.Some? {
      forall c | c in e.children.value
        ensures c in cs
      {
        assert multiset(cs)[c] > 0;
      }
    }
  }

  lemma ChildBelow<K(!new)>(u: Universe<K>, h: K, e: CachedNode<K>, cs: seq<K>, c: K)
    requires u.Valid() && GenuineNode(u, h, e) && ChildList(e, cs) && c in cs
    ensures c != u.zero && u.rank(c) < u.rank(h)
  {
    assert multiset(cs)[c] > 0;
    if c in e.kids {
      KidLies(u, h, c);
    } else {
      assert multiset(e.kids)[c] == 0;
      assert c in e.children.value;
    }
  }

  /** After one more child, a node being torn down has only the links to the children after it. */
  lemma LinksStep<K(!new)>(zero: K, d: Dirties<K>, d': Dirties<K>, dying: seq<K>, h: K, cs: seq<K>, j: nat, some: bool)
    requires j < |cs| && h in d && LinksLeft(d[h], cs[j..], some)
    requires h !in dying && h != zero
    requires Untouched(zero, d[h := Unlinked(d[h], cs[j])], d', dying + [h])
    ensures h in d' && LinksLeft(d'[h], cs[j + 1..], some) && d'[h].size == d[h].size
    ensures Untouched(zero, d, d', dying)
  {
    assert h in dying + [h];
    assert forall c :: c in cs[j..] ==> c == cs[j] || c in cs[j + 1..];
    forall x | x in dying
      ensures x in d && x in d' && d'[x] == d[x]
    {
      assert x in dying + [h];
    }
  }

  lemma UntouchedTrans<K(!new)>(zero: K, a: Dirties<K>, b: Dirties<K>, c: Dirties<K>, dying: seq<K>)
    requires Untouched(zero, a, b, dying) && Untouched(zero, b, c, dying)
    ensures Untouched(zero, a, c, dying)
  {}

  lemma Members<K(!new)>(u: Universe<K>, s: Cache<K>, size: Sizes, dying: seq<K>, owed: multiset<K>)
    requires Good(u, s, size, dying, owed)
    ensures u.Valid() && u.zero in s.d && u.zero !in dying && u.zero !in s.order
    ensures forall h :: h in s.order || h in dying ==> h in s.d
    ensures forall h :: h in dying ==> h !in s.order
  {
    hide Forward;
    hide Backward;
    hide Placed;
    hide Refs;
    hide Closed;
    hide Genuine;
    hide Rooted;
    hide Counted;
    hide Weight;
    ChainFacts(u.zero, s.d, s.order, s.oldest, s.newest);
  }

  lemma SameLinks<K(!new)>(a: CachedNode<K>, b: CachedNode<K>, cs: seq<K>)
    requires SameNode(a, b) && LinksLeft(a, cs, a.children.Some?)
    ensures LinksLeft(b, cs, a.children.Some?)
  {}

  lemma StackTop<K(!new)>(u: Universe<K>, s: Cache<K>, size: Sizes, dying: seq<K>, p: K, owed: multiset<K>)
    requires Good(u, s, size, dying + [p], owed)
    ensures p !in dying && p != u.zero && p in dying + [p] && (dying + [p])[|dying|] == p
    ensures u.zero in s.d && Untouched(u.zero, s.d, s.d, dying) && NoLeak(s.d, s.order, s.d, s.order)
  {
    hide Forward;
    hide Backward;
    hide Placed;
    hide Refs;
    hide Closed;
    hide Genuine;
    hide Rooted;
    hide Counted;
    hide Weight;
    BuryKeys(u.zero, s.d, s.order, dying, p);
    Members(u, s, size, dying + [p], owed);
    assert forall h :: h in dying ==> h in dying + [p];
    assert (dying + [p])[|dying|] == p;
  }

  /** The children are released: deleting the node completes the tear-down that started in s0. */
  lemma Finish<K(!new)>(u: Universe<K>, s0: Cache<K>, s1: Cache<K>, n1: Sizes, s2: Cache<K>, n2: Sizes, dying: seq<K>,
                        owed: multiset<K>, cs: seq<K>, h: K, size: nat, some: bool)
    requires Good(u, s1, n1, dying + [h], owed + multiset(cs)) && Good(u, s2, n2, dying + [h], owed)
    requires Untouched(u.zero, s0.d, s1.d, dying) && NoLeak(s0.d, s0.order, s1.d, s1.order)
    requires Untouched(u.zero, s1.d, s2.d, dying) && NoLeak(s1.d, s1.order, s2.d, s2.order)
    requires h in s2.d && LinksLeft(s2.d[h], [], some) && s2.d[h].size == size
    ensures Good(u, s2.(d := s2.d - {h}),
      Sizes(n2.nodes - HASH_LENGTH - size, n2.links - if some then CHILDREN_SIZE else 0), dying, owed)
    ensures Untouched(u.zero, s0.d, s2.d - {h}, dying) && NoLeak(s0.d, s0.order, s2.d - {h}, s2.order) && h !in s2.order
  {
    hide Good;
    hide LinkBytes;
    hide NoLeak;
    hide Untouched;
    hide LinksLeft;
    Members(u, s1, n1, dying + [h], owed + multiset(cs));
    Members(u, s2, n2, dying + [h], owed);
    StackTop(u, s2, n2, dying, h, owed);
    Delete(u, s2, n2, dying, owed, h);
    NoLinks(s2.d[h], some);
    NoLeakTrans(s0.d, s0.order, s1.d, s1.order, s2.d, s2.order);
    NoLeakTrans(s0.d, s0.order, s2.d, s2.order, s2.d - {h}, s2.order);
    UntouchedTrans(u.zero, s0.d, s1.d, s2.d, dying);
    UntouchedTrans(u.zero, s0.d, s2.d, s2.d - {h}, dying);
  }

  /** insert, on values. */
  lemma Append<K(!new)>(u: Universe<K>, s: Cache<K>, size: Sizes, d1: Dirties<K>, h: K, e: CachedNode<K>)
    requires Good(u, s, size, [], multiset{}) && h !in s.d && Bumped(s.d, d1, e.kids)
    requires GenuineNode(u, h, e) && e.children == None && e.parents == 0 && e.flushPrev == s.newest
    requires e.flushNext == u.zero
    requires forall c :: c in e.kids ==> c in s.d || c in s.disk
    ensures s.oldest != u.zero ==> s.newest in d1
    ensures
      var (d', o', n') := Appended(u.zero, d1, s.oldest, s.newest, h, e);
      && Good(u, s.(d := d', order := s.order + [h], oldest := o', newest := n'),
              size.(nodes := size.nodes + HASH_LENGTH + e.size), [], multiset{})
      && d'.Keys == s.d.Keys + {h}
  {
    hide Chain;
    hide Appended;
    hide Refs;
    hide Cnt;
    hide Distinct;
    hide GenuineNode;
    hide Genuine;
    hide Placed;
    hide Counted;
    hide Keyed;
    hide Closed;
    hide Rooted;
    hide Weight;
    AppendInv(u, s, d1, h, e);
    BumpedChain(u, s, d1, e.kids);
    AppendChain(u.zero, d1, s.order, s.oldest, s.newest, h, e);
    var (d', o', n') := Appended(u.zero, d1, s.oldest, s.newest, h, e);
    WeightAppend(u.zero, s.d, d', s.order, h, e);
  }

  /**
   * The cache after an insertion: the new node without parents, and one parent more per occurrence for
   * its children.
   */
  ghost predicate Inserted<K(!new)>(d: Dirties<K>, d': Dirties<K>, h: K, blob: seq<byte>, kids: seq<K>) {
    && d'.Keys == d.Keys + {h}
    && d'[h].blob == blob && d'[h].kids == kids && d'[h].size == Cut16(|blob|) && d'[h].parents == 0
    && d'[h].children == None
    && forall k :: k in d ==> SameNode(d[k].(parents := d[k].parents + multiset(kids)[k]), d'[k])
  }

  lemma InsertedBy<K(!new)>(u: Universe<K>, s: Cache<K>, size: Sizes, d1: Dirties<K>, h: K, e: CachedNode<K>)
    requires Good(u, s, size, [], multiset{}) && h !in s.d && Bumped(s.d, d1, e.kids)
    requires e.children == None && e.parents == 0 && e.flushPrev == s.newest && e.flushNext == u.zero
    requires e.size == Cut16(|e.blob|)
    ensures s.oldest != u.zero ==> s.newest in d1
    ensures Inserted(s.d, Appended(u.zero, d1, s.oldest, s.newest, h, e).0, h, e.blob, e.kids)
  {
    hide Chain;
    hide Appended;
    hide Refs;
    hide Cnt;
    hide Distinct;
    hide Genuine;
    hide Placed;
    hide Counted;
    hide Keyed;
    hide Closed;
    hide Rooted;
    hide Weight;
    hide Cut16;
    BumpedChain(u, s, d1, e.kids);
    AppendChain(u.zero, d1, s.order, s.oldest, s.newest, h, e);
  }

  lemma WeightAppend<K(!new)>(zero: K, d: Dirties<K>, d': Dirties<K>, order: seq<K>, h: K, e: CachedNode<K>)
    requires h in d' && SameNode(d'[h], e) && e.children == None && zero in d && zero in d'
    requires d'[zero].children == d[zero].children
    requires forall x :: x in order ==> x in d && x in d' && d'[x].size == d[x].size && d'[x].children == d[x].children
    ensures Weight(zero, d', order + [h], []) ==
      Weight(zero, d, order, []).(nodes := Weight(zero, d, order, []).nodes + HASH_LENGTH + e.size)
  {
    SumConcat(NodeBytes(d'), order, [h]);
    assert Sum(NodeBytes(d'), [h]) == NodeBytes(d')(h) == HASH_LENGTH + e.size;
    SumSame(NodeBytes(d), NodeBytes(d'), order);
    SumConcat(MapBytesOf(d'), order, [h]);
    assert Sum(MapBytesOf(d'), [h]) == MapBytesOf(d')(h) == 0;
    SumSame(MapBytesOf(d), MapBytesOf(d'), order);
  }

  lemma BumpStart<K(!new)>(d: Dirties<K>)
    ensures Bumped(d, d, [])
  {}

  lemma BumpNext<K(!new)>(d0: Dirties<K>, d: Dirties<K>, kids: seq<K>, i: nat)
    requires i < |kids| && Bumped(d0, d, kids[..i])
    ensures Bumped(d0, if kids[i] in d then Raised(d, kids[i]) else d, kids[..i + 1])
  {
    assert kids[..i + 1] == kids[..i] + [kids[i]];
  }

  /** reference, on values. */
  lemma Link<K(!new)>(u: Universe<K>, s: Cache<K>, size: Sizes, c: K, p: K)
    requires Good(u, s, size, [], multiset{}) && c in s.d && c != u.zero && p in s.d && MayLink(u, s, c, p)
    ensures c != p
    ensures
      var d1 := Raised(s.d, c);
      var d' := d1[p := Linked(d1[p], c)];
      Good(u, s.(d := d'), Remapped(size, MapBytes(s.d[p], u.zero == p), MapBytes(d'[p], u.zero == p)), [], multiset{})
  {
    hide Chain;
    hide Refs;
    hide Cnt;
    hide Distinct;
    hide GenuineNode;
    hide Genuine;
    hide Placed;
    hide Counted;
    hide Rooted;
    hide LinkBytes;
    hide Weight;
    hide MapBytes;
    hide Linked;
    LinkInv(u, s, c, p);
    ChainFacts(u.zero, s.d, s.order, s.oldest, s.newest);
    WeightLink(u.zero, s.d, s.order, c, p);
  }

  lemma WeightLink<K(!new)>(zero: K, d: Dirties<K>, order: seq<K>, c: K, p: K)
    requires c in d && p in d && c != p && c != zero && zero in d && (p == zero || p in order)
    requires Distinct(order) && zero !in order && forall h :: h in order ==> h in d
    ensures
      var d1 := Raised(d, c);
      var d' := d1[p := Linked(d1[p], c)];
      Weight(zero, d', order, []) ==
        Remapped(Weight(zero, d, order, []), MapBytes(d[p], zero == p), MapBytes(d'[p], zero == p))
  {
    hide Distinct;
    hide Sum;
    var d1 := Raised(d, c);
    var d' := d1[p := Linked(d1[p], c)];
    LinkElsewhere(d, c, p);
    hide LinkBytes;
    NoBytes(d);
    NoBytes(d');
    if p == zero {
      SumSame(NodeBytes(d), NodeBytes(d'), order);
      SumSame(MapBytesOf(d), MapBytesOf(d'), order);
    } else {
      var i :| 0 <= i < |order| && order[i] == p;
      DropMembers(order, i);
      SumChange(NodeBytes(d), NodeBytes(d'), order, i);
      SumChange(MapBytesOf(d), MapBytesOf(d'), order, i);
      LinkMeta(zero, d, c, p);
    }
  }

  lemma NoBytes<K(!new)>(d: Dirties<K>)
    ensures Sum(NodeBytes(d), []) == 0 && Sum(MapBytesOf(d), []) == 0
  {}

  lemma LinkMeta<K(!new)>(zero: K, d: Dirties<K>, c: K, p: K)
    requires c in d && p in d && c != p && c != zero && p != zero && zero in d
    ensures var d1 := Raised(d, c); MetaBytes(zero, d1[p := Linked(d1[p], c)]) == MetaBytes(zero, d)
  {}

  /** Apart from the node with the new link, bytes are as before, and so is that node's own size. */
  lemma LinkElsewhere<K(!new)>(d: Dirties<K>, c: K, p: K)
    requires c in d && p in d && c != p
    ensures var d1 := Raised(d, c);
      var d' := d1[p := Linked(d1[p], c)];
      && (forall x :: x in d && x != p ==> NodeBytes(d')(x) == NodeBytes(d)(x) && MapBytesOf(d')(x) == MapBytesOf(d)(x))
      && NodeBytes(d')(p) == NodeBytes(d)(p)
      && MapBytesOf(d)(p) == LinkBytes(d[p]) && MapBytesOf(d')(p) == LinkBytes(d'[p])
  {}

  predicate LinkedTo<K(==)>(e: CachedNode<K>, c: K) {
    e.children.Some? && c in e.children.value
  }

  lemma MetaKids<K(!new)>(u: Universe<K>, s: Cache<K>, size: Sizes)
    requires Good(u, s, size, [], multiset{})
    ensures u.zero in s.d && s.d[u.zero].kids == []
  {
    hide Chain;
    hide Keyed;
    hide Placed;
    hide Counted;
    hide Closed;
    hide Rooted;
    hide Weight;
    hide GenuineNode;
  }

  lemma MetaMap<K(!new)>(u: Universe<K>, s: Cache<K>, size: Sizes)
    requires Good(u, s, size, [], multiset{})
    ensures u.zero in s.d && s.d[u.zero].children.Some?
    ensures forall c :: c in s.d[u.zero].children.value ==> s.d[u.zero].children.value[c] > 0
  {
    hide Chain;
    hide Keyed;
    hide Placed;
    hide Counted;
    hide Weight;
  }

  lemma LinkedBytes<K(!new)>(e: CachedNode<K>, c: K, meta: bool)
    requires meta ==> e.children.Some?
    requires e.children.Some? && c in e.children.value ==> e.children.value[c] > 0
    ensures var e' := Linked(e, c);
      && e'.children.Some? && c in e'.children.value
      && MapBytes(e', meta) == MapBytes(e, meta)
        + (if e.children.None? then CHILDREN_SIZE else 0) + if e'.children.value[c] == 1 then LINK_SIZE else 0
  {
    if e.children.Some? && c in e.children.value {
      var m := e.children.value;
      assert m[c := m[c] + 1].Keys == m.Keys;
    }
  }

  /** A blob's size is cut to 16 bits, and then again its sum with the hash length. */
  predicate Wraps(blob: seq<byte>) {
    Cut16(|blob|) >= 0x1_0000 - HASH_LENGTH
  }

  /** What the two cuts lose of a blob's bytes: the first while the node is cached, the second for good. */
  lemma AddSize(blob: seq<byte>)
    ensures HASH_LENGTH + |blob| ==
      Cut16(HASH_LENGTH + Cut16(|blob|)) + (if Wraps(blob) then 0x1_0000 else 0) + (|blob| - Cut16(|blob|))
    ensures |blob| - Cut16(|blob|) >= 0 && (|blob| == Cut16(|blob|) <==> |blob| < 0x1_0000)
  {}

  /** A disk that accepts the given number of writes, or all of them: one write less. */
  function Spent(quota: Option<nat>): (left: Option<nat>)
    requires quota != Some(0)
  {
    if quota.None? then None else Some(quota.value - 1)
  }

  /** Writes were only used up, and one was refused only when none was left. */
  predicate Spending(ok: bool, quota: Option<nat>, left: Option<nat>) {
    && (quota.None? <==> left.None?) && (quota.Some? ==> left.value <= quota.value)
    && (!ok ==> left == Some(0))
  }

  /** What a node really takes, and what of that its recorded size leaves out. */
  function BlobBytes<K(==)>(d: Dirties<K>): (f: K -> int) {
    h => if h in d then HASH_LENGTH + |d[h].blob| else 0
  }

  function CutBytes<K(==)>(d: Dirties<K>): (f: K -> int) {
    h => if h in d then |d[h].blob| - d[h].size else 0
  }

  /** What the cached nodes really take. */
  function TrueWeight<K(==)>(zero: K, d: Dirties<K>, order: seq<K>): (n: Sizes) {
    Sizes(Sum(BlobBytes(d), order), Sum(MapBytesOf(d), order) + MetaBytes(zero, d))
  }

  ghost predicate AllSmall<K(!new)>(d: Dirties<K>, order: seq<K>) {
    forall h :: h in order && h in d ==> |d[h].blob| < 0x1_0000
  }

  /** The recorded sizes fall short of that by what was cut off, which is nothing exactly if all blobs are small. */
  lemma WeightCut<K(!new)>(u: Universe<K>, s: Cache<K>, n: Sizes)
    requires Good(u, s, n, [], multiset{})
    ensures TrueWeight(u.zero, s.d, s.order) == Sizes(n.nodes + Sum(CutBytes(s.d), s.order), n.links)
    ensures Sum(CutBytes(s.d), s.order) >= 0
    ensures Sum(CutBytes(s.d), s.order) == 0 <==> AllSmall(s.d, s.order)
  {
    hide Good;
    hide Sum;
    GenuineSizes(u, s, n);
    OrderKeys(u, s, n);
    var cut := CutBytes(s.d);
    forall h | h in s.order
      ensures NodeBytes(s.d)(h) + cut(h) == BlobBytes(s.d)(h) && cut(h) >= 0
      ensures cut(h) == 0 <==> |s.d[h].blob| < 0x1_0000
    {
      CutAt(s.d, h);
    }
    SumAdd(NodeBytes(s.d), cut, BlobBytes(s.d), s.order);
    SumZero(cut, s.order);
    hide CutBytes;
    hide Distinct;
  }

  lemma CutAt<K(!new)>(d: Dirties<K>, h: K)
    requires h in d && d[h].size == Cut16(|d[h].blob|)
    ensures NodeBytes(d)(h) + CutBytes(d)(h) == BlobBytes(d)(h) && CutBytes(d)(h) >= 0
    ensures CutBytes(d)(h) == 0 <==> |d[h].blob| < 0x1_0000
  {
    AddSize(d[h].blob);
  }

  lemma GenuineSizes<K(!new)>(u: Universe<K>, s: Cache<K>, n: Sizes)
    requires Good(u, s, n, [], multiset{})
    ensures forall h :: h in s.order ==> h in s.d && s.d[h].size == Cut16(|s.d[h].blob|)
    ensures n.nodes == Sum(NodeBytes(s.d), s.order)
  {
    hide Placed;
    hide Counted;
    hide Refs;
    hide Backward;
    hide Distinct;
    assert Sum(NodeBytes(s.d), []) == 0;
    forall h | h in s.order
      ensures h in s.d && s.d[h].size == Cut16(|s.d[h].blob|)
    {
      assert GenuineNode(u, h, s.d[h]);
    }
  }

  lemma StoredBlob<K(!new)>(u: Universe<K>, s: Cache<K>, size: Sizes, h: K)
    requires Good(u, s, size, [], multiset{}) && h in s.disk
    ensures s.disk[h] == u.blob(h)
  {
    hide Chain;
    hide Keyed;
    hide Placed;
    hide Counted;
    hide Genuine;
    hide Weight;
  }

  lemma NewNode<K(!new)>(u: Universe<K>, h: K, e: CachedNode<K>)
    requires e.blob == u.blob(h) && (e.kids == u.kids(h) || e.kids == [])
    requires e.size == Cut16(|e.blob|) && e.children == None
    ensures GenuineNode(u, h, e)
  {}

  /** The bytes of a node's link map; the meta-root's empty map is free. */
  function MapBytes<K(==)>(e: CachedNode<K>, meta: bool): (n: int) {
    if !meta then LinkBytes(e)
    else if e.children.Some? then LINK_SIZE * |e.children.value|
    else 0
  }

  // ---- what the invariant means ----

  /** No listed node is on disk or without parents. */
  ghost predicate AllParented<K(!new)>(d: Dirties<K>, disk: map<K, seq<byte>>, order: seq<K>) {
    forall h :: h in order ==> h !in disk && (h in d ==> d[h].parents > 0)
  }

  lemma ParentedKept<K(!new)>(u: Universe<K>, s: Cache<K>, size: Sizes, d0: Dirties<K>, o0: seq<K>)
    requires AllParented(d0, s.disk, o0) && NoLeak(d0, o0, s.d, s.order) && forall h :: h in o0 ==> h in d0
    ensures AllParented(s.d, s.disk, s.order)
  {}

  /** Once the meta-root refers to nothing, and nothing is without parents, nothing is cached. */
  lemma NothingHeld<K(!new)>(u: Universe<K>, s: Cache<K>, size: Sizes)
    requires Good(u, s, size, [], multiset{}) && AllParented(s.d, s.disk, s.order)
    requires u.zero in s.d && s.d[u.zero].children == Some(map[])
    ensures s.order == [] && s.d.Keys == {u.zero}
  {
    hide Forward;
    hide Backward;
    hide Weight;
    hide GenuineNode;
    hide Rooted;
    hide Closed;
    ChainFacts(u.zero, s.d, s.order, s.oldest, s.newest);
    if s.order != [] {
      LastUnheld(u, s);
      assert false;
    }
  }

  /** Nothing refers to the last node on the list but the meta-root. */
  lemma LastUnheld<K(!new)>(u: Universe<K>, s: Cache<K>)
    requires s.order != [] && Distinct(s.order) && Placed(s.d, s.disk, s.order) && s.order[|s.order| - 1] !in s.disk
    requires u.zero in s.d && s.d[u.zero].kids == [] && s.d[u.zero].children == Some(map[])
    ensures Refs(u.zero, s.d, s.order, s.order[|s.order| - 1]) == 0
  {
    var h := s.order[|s.order| - 1];
    var f := CountOf(s.d, h);
    forall x | x in s.order
      ensures f(x) == 0
    {
      var i :| 0 <= i < |s.order| && s.order[i] == x;
      assert h !in s.order[..i];
    }
    SumZero(f, s.order);
    assert multiset(s.d[u.zero].kids)[h] == 0;
  }

  predicate Readable<K(==)>(zero: K, s: Cache<K>, h: K) {
    h != zero && (h in s.d || h in s.disk)
  }

  /** A node with children of which no copy, in the cache or on disk, was inserted as a node. */
  ghost predicate Bare<K(!new)>(u: Universe<K>, s: Cache<K>, h: K) {
    u.kids(h) != [] && (h in s.d ==> s.d[h].kids == []) && (h in s.disk ==> h in s.plain)
  }

  /** A readable node's embedded children are readable, unless it was only ever inserted as a blob. */
  lemma ReadableKids<K(!new)>(u: Universe<K>, s: Cache<K>, size: Sizes, h: K)
    requires Good(u, s, size, [], multiset{}) && Readable(u.zero, s, h) && !Bare(u, s, h)
    ensures forall c :: c in u.kids(h) ==> Readable(u.zero, s, c)
  {
    hide Good;
    Members(u, s, size, [], multiset{});
    forall c | c in u.kids(h)
      ensures Readable(u.zero, s, c)
    {
      KidLies(u, h, c);
      if h in s.disk && h !in s.plain {
        StoredKids(u, s, size, h, c);
      } else {
        var i := Listed(u, s, size, [], multiset{}, h);
        KidsCounted(s.d[h], c);
        PlacedAt(u, s, size, i);
      }
    }
  }

  lemma StoredKids<K(!new)>(u: Universe<K>, s: Cache<K>, size: Sizes, h: K, c: K)
    requires Good(u, s, size, [], multiset{}) && h in s.disk && h !in s.plain && c in u.kids(h)
    ensures c in s.disk
  {
    hide Chain;
    hide Keyed;
    hide Placed;
    hide Counted;
    hide Genuine;
    hide Rooted;
    hide Weight;
  }

  /** A root the meta-root refers to is readable. */
  lemma RootReadable<K(!new)>(u: Universe<K>, s: Cache<K>, size: Sizes, root: K)
    requires Good(u, s, size, [], multiset{}) && u.zero in s.d && Cnt(s.d[u.zero], root) > 0
    ensures Readable(u.zero, s, root)
  {
    hide Forward;
    hide Backward;
    hide Counted;
    hide Placed;
    hide Weight;
    ChainFacts(u.zero, s.d, s.order, s.oldest, s.newest);
  }

  /**
   * Taking back a reference that nobody gave is safe exactly for nodes on disk and for nodes
   * nothing refers to: otherwise the counter falls behind the live references.
   */
  lemma DecrementExact<K(!new)>(u: Universe<K>, s: Cache<K>, h: K)
    requires Inv(u, s, [], multiset{}) && h in s.d && h != u.zero
    ensures Inv(u, s.(d := Decremented(s.d, h)), [], multiset{}) <==> h in s.disk || Refs(u.zero, s.d, s.order, h) == 0
  {
    hide Forward;
    hide Backward;
    hide Refs;
    hide Cnt;
    hide Placed;
    hide Genuine;
    hide Rooted;
    hide Closed;
    ChainFacts(u.zero, s.d, s.order, s.oldest, s.newest);
    assert h in s.order;
    RefsSame(u.zero, s.d, Decremented(s.d, h), s.order, h);
    if h in s.disk || s.d[h].parents == 0 {
      Decrement(u, s, [], multiset{}, h);
      assert multiset{} - multiset{h} == multiset{};
    }
  }

  /** A link between nodes keeps the invariant exactly if it leads down to a child that is stored or listed before. */
  lemma LinkExact<K(!new)>(u: Universe<K>, s: Cache<K>, c: K, p: K)
    requires Inv(u, s, [], multiset{}) && c in s.d && p in s.d && c != u.zero && p != u.zero && c != p
    requires !LinkedTo(s.d[p], c)
    ensures Inv(u, s.(d := Raised(s.d, c)[p := Linked(Raised(s.d, c)[p], c)]), [], multiset{}) <==> MayLink(u, s, c, p)
  {
    hide Forward;
    hide Backward;
    hide Counted;
    hide Closed;
    hide Rooted;
    hide Cnt;
    var s' := s.(d := Raised(s.d, c)[p := Linked(Raised(s.d, c)[p], c)]);
    if MayLink(u, s, c, p) {
      LinkInv(u, s, c, p);
    }
    if Inv(u, s', [], multiset{}) {
      var i :| 0 <= i < |s.order| && s.order[i] == p;
      LinkedCnt(Raised(s.d, c)[p], c);
      assert GenuineNode(u, p, s'.d[p]);
      assert c in s'.disk || c in s'.order[..i];
    }
  }

  /** So does a new node exactly if its children are there. */
  lemma AppendExact<K(!new)>(u: Universe<K>, s: Cache<K>, d1: Dirties<K>, h: K, e: CachedNode<K>)
    requires Inv(u, s, [], multiset{}) && h !in s.d && Bumped(s.d, d1, e.kids)
    requires GenuineNode(u, h, e) && e.children == None && e.parents == 0 && e.flushPrev == s.newest
    requires e.flushNext == u.zero && (s.oldest != u.zero ==> s.newest in d1)
    ensures
      var (d', o', n') := Appended(u.zero, d1, s.oldest, s.newest, h, e);
      Inv(u, s.(d := d', order := s.order + [h], oldest := o', newest := n'), [], multiset{})
      <==> forall c :: c in e.kids ==> c in s.d || c in s.disk
  {
    hide Forward;
    hide Backward;
    hide Counted;
    hide Closed;
    hide Rooted;
    hide Cnt;
    hide GenuineNode;
    var (d', o', n') := Appended(u.zero, d1, s.oldest, s.newest, h, e);
    var s' := s.(d := d', order := s.order + [h], oldest := o', newest := n');
    if forall c :: c in e.kids ==> c in s.d || c in s.disk {
      AppendInv(u, s, d1, h, e);
    }
    if Inv(u, s', [], multiset{}) {
      KidsCnt(u, h, e);
      assert s'.order[|s.order|] == h && s'.order[..|s.order|] == s.order;
      forall c | c in e.kids
        ensures c in s.d || c in s.disk
      {
        assert c in s'.disk || c in s'.order[..|s.order|];
      }
    }
  }

  // ---- moving nodes to disk ----

  /**
   * Nothing readable gets lost, what a removed or newly stored node refers to is on disk, the
   * remaining nodes differ in their list links only, and only blobs come to the disk as such.
   */
  ghost predicate Kept<K(!new)>(s: Cache<K>, s': Cache<K>) {
    && (forall h :: h in s.disk ==> h in s'.disk)
    && (forall h :: h in s.d ==> h in s'.d || h in s'.disk)
    && (forall h :: h in s'.d ==> h in s.d && SameNode(s.d[h], s'.d[h]))
    && (forall h :: h in s'.disk ==> h in s.disk || h in s.d)
    && (forall h, c :: h in s.d && h !in s'.d && Cnt(s.d[h], c) > 0 ==> c in s'.disk)
    && (forall h, c :: h in s'.disk && h !in s.disk && h in s.d && Cnt(s.d[h], c) > 0 ==> c in s'.disk)
    && (forall h :: h in s'.plain ==> h in s.plain || (h !in s.disk && h in s.d && s.d[h].kids == []))
  }

  lemma KeptTrans<K(!new)>(a: Cache<K>, b: Cache<K>, c: Cache<K>)
    requires Kept(a, b) && Kept(b, c)
    ensures Kept(a, c)
  {
    hide Cnt;
    forall h, x | h in a.d && h !in c.d && Cnt(a.d[h], x) > 0
      ensures x in c.disk
    {
      if h in b.d {
        CntSame(a.d[h], b.d[h]);
      }
    }
    forall h, x | h in c.disk && h !in a.disk && h in a.d && Cnt(a.d[h], x) > 0
      ensures x in c.disk
    {
      if h !in b.disk {
        CntSame(a.d[h], b.d[h]);
      }
    }
  }

  lemma Stored<K(!new)>(u: Universe<K>, s: Cache<K>, size: Sizes, disk': map<K, seq<byte>>, plain': set<K>)
    requires Good(u, s, size, [], multiset{}) && Closed(u, disk', plain')
    requires forall h :: h in s.disk ==> h in disk'
    ensures Good(u, s.(disk := disk', plain := plain'), size, [], multiset{})
  {
    hide Chain;
    hide Keyed;
    hide Genuine;
    hide Refs;
    hide Cnt;
    hide Weight;
  }

  /** Once a node and all it refers to are on disk it can leave the cache. */
  lemma Uncache<K(!new)>(u: Universe<K>, s: Cache<K>, size: Sizes, i: nat)
    requires Good(u, s, size, [], multiset{}) && i < |s.order| && s.order[i] in s.disk && s.order[i] in s.d
    requires forall c :: Cnt(s.d[s.order[i]], c) > 0 ==> c in s.disk
    ensures var h := s.order[i]; s.d[h].flushNext in s.d && (h != s.oldest ==> s.d[h].flushPrev in s.d)
    ensures
      var h := s.order[i];
      var (d', o', n') := Unlink(u.zero, s.d, s.oldest, s.newest, h);
      var s' := s.(d := d' - {h}, order := Drop(s.order, i), oldest := o', newest := n');
      && Good(u, s', Without(size, s.d[h]), [], multiset{})
      && Kept(s, s')
  {
    hide Inv;
    hide Cnt;
    hide Unlink;
    hide LinkBytes;
    hide Good;
    var (h, e) := (s.order[i], s.d[s.order[i]]);
    var ch := Multiplicity(u, s, size, i);
    Unhook(u, s, size, [], multiset{}, i, ch);
    var (d', o', n') := Unlink(u.zero, s.d, s.oldest, s.newest, h);
    var s1 := s.(d := d', order := Drop(s.order, i), oldest := o', newest := n');
    assert [] + [h] == [h];
    assert multiset{} + ch == ch;
    SettleAll(u, s1, size, h, ch);
    Delete(u, s1, size, [], multiset{}, h);
    UnhookKeeps(u, s, size, i);
    assert LinkBytes(d'[h]) == LinkBytes(e) by { SameBytes(e, d'[h]); }
  }

  lemma SameBytes<K(!new)>(a: CachedNode<K>, b: CachedNode<K>)
    requires SameNode(a, b)
    ensures LinkBytes(a) == LinkBytes(b) && a.size == b.size
  {}

  lemma Multiplicity<K(!new)>(u: Universe<K>, s: Cache<K>, size: Sizes, i: nat) returns (ch: multiset<K>)
    requires Good(u, s, size, [], multiset{}) && i < |s.order| && s.order[i] in s.d
    ensures forall c :: ch[c] == Cnt(s.d[s.order[i]], c)
  {
    hide Chain;
    hide Placed;
    hide Counted;
    hide Refs;
    hide Weight;
    var e := s.d[s.order[i]];
    assert GenuineNode(u, s.order[i], e);
    ch := multiset(e.kids) + if e.children.Some? then multiset(e.children.value.Keys) else multiset{};
  }

  lemma SettleAll<K(!new)>(u: Universe<K>, s: Cache<K>, size: Sizes, h: K, ch: multiset<K>)
    requires Good(u, s, size, [h], ch) && forall c :: ch[c] > 0 ==> c in s.disk
    ensures Good(u, s, size, [] + [h], multiset{})
  {
    hide Inv;
    hide Weight;
    assert [] + [h] == [h];
    assert multiset{} + ch == ch;
    Settle(u, s, [h], multiset{}, ch);
  }

  lemma UnhookKeeps<K(!new)>(u: Universe<K>, s: Cache<K>, size: Sizes, i: nat)
    requires Good(u, s, size, [], multiset{}) && i < |s.order| && s.order[i] in s.d && s.order[i] in s.disk
    requires var h := s.order[i]; s.d[h].flushNext in s.d && (h != s.oldest ==> s.d[h].flushPrev in s.d)
    requires forall c :: Cnt(s.d[s.order[i]], c) > 0 ==> c in s.disk
    ensures
      var h := s.order[i];
      var (d', o', n') := Unlink(u.zero, s.d, s.oldest, s.newest, h);
      && SameNode(s.d[h], d'[h]) && Kept(s, s.(d := d' - {h}, order := Drop(s.order, i), oldest := o', newest := n'))
  {
    hide Chain;
    hide Placed;
    hide Counted;
    hide Genuine;
    hide Refs;
    hide Weight;
    hide Cnt;
    hide Unlink;
    UnlinkChain(u.zero, s.d, s.order, s.oldest, s.newest, i);
  }

  /** The back link of the first node does not matter. */
  lemma HeadLink<K(!new)>(u: Universe<K>, s: Cache<K>, size: Sizes, x: K)
    requires Good(u, s, size, [], multiset{})
    ensures s.oldest in s.d && Good(u, s.(d := SetPrev(s.d, s.oldest, x)), size, [], multiset{})
  {
    hide Forward;
    hide Backward;
    hide Refs;
    hide Cnt;
    hide Weight;
    hide GenuineNode;
    ChainFacts(u.zero, s.d, s.order, s.oldest, s.newest);
    var d' := SetPrev(s.d, s.oldest, x);
    ForwardFrame(u.zero, s.d, d', s.order);
    HeadOpen(s.d, d', s.order);
    GenuineFrame(u, s.d, d', s.order, s.order);
    PlacedFrame(s.d, d', s.disk, s.order);
    CountedFrame(u.zero, s.d, d', s.disk, s.order, multiset{});
    CntSame(s.d[u.zero], d'[u.zero]);
    WeightSame(u.zero, s.d, d', s.order, []);
  }

  lemma KeptSelf<K(!new)>(s: Cache<K>)
    ensures Kept(s, s)
  {}

  lemma KeptGrounded<K(!new)>(s: Cache<K>, s': Cache<K>, ks: set<K>)
    requires Kept(s, s') && Grounded(s, ks)
    ensures Grounded(s', ks)
  {
    hide Cnt;
    forall x, c | x in ks && x in s'.d && Cnt(s'.d[x], c) > 0
      ensures c in s'.disk
    {
      CntSame(s.d[x], s'.d[x]);
    }
  }

  // ---- what a commit takes out of the cache ----

  lemma UnlinkKeys<K(!new)>(zero: K, d: Dirties<K>, oldest: K, newest: K, h: K)
    requires h in d && d[h].flushNext in d && (h != oldest ==> d[h].flushPrev in d)
    ensures Unlink(zero, d, oldest, newest, h).0.Keys == d.Keys
  {}

  lemma AllChildren<K(!new)>(cs: seq<K>, e: CachedNode<K>)
    requires forall c :: multiset(cs)[c] == Cnt(e, c)
    ensures forall c :: c in cs <==> Cnt(e, c) > 0
  {
    hide Cnt;
    forall c
      ensures c in cs <==> Cnt(e, c) > 0
    {
      assert c in cs <==> c in multiset(cs);
    }
  }

  /**
   * Since d0 exactly the nodes in gone have left the cache or are about to, ks being still to be
   * taken out; whatever they refer to is among them.
   */
  ghost predicate Swept<K(!new)>(d0: Dirties<K>, d: Dirties<K>, ks: set<K>, gone: set<K>) {
    && (forall x :: x in d ==> x in d0 && SameNode(d0[x], d[x]))
    && (forall x :: x in d0 && (x !in d || x in ks) <==> x in gone)
    && (forall x, c :: x in gone && x in d0 && Cnt(d0[x], c) > 0 && c in d0 ==> c in gone)
  }

  /** A chain of cached nodes, each referring to the next. */
  ghost predicate Path<K(!new)>(d: Dirties<K>, p: seq<K>) {
    && p != [] && (forall i :: 0 <= i < |p| ==> p[i] in d)
    && forall i :: 0 <= i < |p| - 1 ==> Cnt(d[p[i]], p[i + 1]) > 0
  }

  ghost predicate Reaches<K(!new)>(d: Dirties<K>, a: K, b: K) {
    exists p :: Path(d, p) && p[0] == a && p[|p| - 1] == b
  }

  lemma ReachSelf<K(!new)>(d: Dirties<K>, h: K)
    requires h in d
    ensures Reaches(d, h, h)
  {
    assert Path(d, [h]);
  }

  lemma ReachStep<K(!new)>(d: Dirties<K>, h: K, c: K, x: K)
    requires h in d && Cnt(d[h], c) > 0 && Reaches(d, c, x)
    ensures Reaches(d, h, x)
  {
    hide Cnt;
    var p :| Path(d, p) && p[0] == c && p[|p| - 1] == x;
    var q := [h] + p;
    forall i | 0 <= i < |q| - 1
      ensures q[i] in d && Cnt(d[q[i]], q[i + 1]) > 0
    {
      if i > 0 {
        assert q[i] == p[i - 1] && q[i + 1] == p[i];
      }
    }
    assert Path(d, q) && q[|q| - 1] == x;
  }

  lemma {:induction false} PathGone<K(!new)>(d: Dirties<K>, gone: set<K>, p: seq<K>)
    requires Path(d, p) && p[0] in gone
    requires forall x, c :: x in gone && x in d && Cnt(d[x], c) > 0 && c in d ==> c in gone
    ensures p[|p| - 1] in gone
  {
    hide Cnt;
    if |p| > 1 {
      var q := p[1..];
      forall i | 0 <= i < |q| - 1
        ensures Cnt(d[q[i]], q[i + 1]) > 0
      {
        assert q[i] == p[i + 1] && q[i + 1] == p[i + 2];
      }
      assert Cnt(d[p[0]], p[1]) > 0;
      PathGone(d, gone, q);
    }
  }

  lemma SweepStart<K(!new)>(d: Dirties<K>)
    ensures Swept(d, d, {}, {})
  {}

  lemma SweepAdd<K(!new)>(d0: Dirties<K>, d: Dirties<K>, ks: set<K>, gone: set<K>, h: K)
    requires Swept(d0, d, ks, gone) && h in d0 && forall c :: Cnt(d0[h], c) > 0 && c in d0 ==> c in gone
    ensures Swept(d0, d, ks + {h}, gone + {h})
  {
    hide Cnt;
  }

  lemma SweepFlush<K(!new)>(d0: Dirties<K>, s: Cache<K>, s': Cache<K>, ks: set<K>, gone: set<K>)
    requires Swept(d0, s.d, ks, gone) && Kept(s, s') && s'.d.Keys == s.d.Keys - ks
    ensures Swept(d0, s'.d, {}, gone)
  {
    hide Cnt;
  }

  /** What is about to be written is already on disk or one of those gone. */
  lemma SweptKeys<K(!new)>(u: Universe<K>, s: Cache<K>, d0: Dirties<K>, batch: seq<Put<K>>, gone: set<K>)
    requires Swept(d0, s.d, KeysOf(batch), gone) && Ready(u, s, batch)
    ensures forall x :: x in KeysOf(batch) ==> x in s.disk || x in gone
  {
    hide Cnt;
    forall x | x in KeysOf(batch)
      ensures x in s.disk || x in gone
    {
      var p :| p in batch && p.key == x;
      var i :| 0 <= i < |batch| && batch[i] == p;
    }
  }

  /** What has left is on disk. */
  lemma GoneStored<K(!new)>(s: Cache<K>, s': Cache<K>, gone: set<K>)
    requires Kept(s, s') && s'.d.Keys == s.d.Keys - gone && gone <= s.d.Keys
    ensures gone <= s'.disk.Keys && s.disk.Keys <= s'.disk.Keys
  {
    hide Cnt;
  }

  /** A node is in the cache, or it is one of those gone. */
  lemma SweepMember<K(!new)>(d0: Dirties<K>, d: Dirties<K>, ks: set<K>, gone: set<K>, h: K)
    requires Swept(d0, d, ks, gone)
    ensures h !in d && h in d0 ==> h in gone
    ensures h in d ==> h in d0 && forall c :: Cnt(d0[h], c) == Cnt(d[h], c)
  {
    if h in d {
      CntSame(d0[h], d[h]);
    }
  }

  /** What is reached from a child is reached from the node. */
  lemma ReachChild<K(!new)>(d0: Dirties<K>, start: set<K>, a: set<K>, b: set<K>, h: K, c: K)
    requires h in d0 && Cnt(d0[h], c) > 0
    requires forall x :: x in a && x !in start ==> Reaches(d0, h, x)
    requires forall x :: x in b && x !in a ==> Reaches(d0, c, x)
    ensures forall x :: x in b && x !in start ==> Reaches(d0, h, x)
  {
    hide Cnt;
    hide Reaches;
    forall x | x in b && x !in start
      ensures Reaches(d0, h, x)
    {
      if x !in a {
        ReachStep(d0, h, c, x);
      }
    }
  }

  /** The nodes gone are exactly those reached from the root. */
  lemma GoneReached<K(!new)>(d0: Dirties<K>, d: Dirties<K>, gone: set<K>, root: K)
    requires Swept(d0, d, {}, gone) && (root in d0 ==> root in gone) && forall x :: x in gone ==> Reaches(d0, root, x)
    ensures forall x :: x in gone <==> Reaches(d0, root, x)
    ensures d.Keys == d0.Keys - gone && gone <= d0.Keys
  {
    hide Cnt;
    forall x | Reaches(d0, root, x)
      ensures x in gone
    {
      var p :| Path(d0, p) && p[0] == root && p[|p| - 1] == x;
      PathGone(d0, gone, p);
    }
  }

  // ---- bytes on the wrong counter ----

  function GoneMaps<K(==)>(d: Dirties<K>, gone: set<K>): (f: K -> int) {
    h => if h in gone then MapBytesOf(d)(h) else 0
  }

  lemma {:induction false} SumAdd<K>(f: K -> int, g: K -> int, h: K -> int, s: seq<K>)
    requires forall x :: x in s ==> f(x) + g(x) == h(x)
    ensures Sum(f, s) + Sum(g, s) == Sum(h, s)
  {
    if s != [] {
      SumAdd(f, g, h, s[1..]);
    }
  }

  /** Elements that weigh nothing may be left out, and the order does not matter. */
  lemma {:induction false} SumSubset<K(!new)>(f: K -> int, a: seq<K>, b: seq<K>)
    requires Distinct(a) && Distinct(b) && forall x :: x in b ==> x in a
    requires forall x :: x in a && x !in b ==> f(x) == 0
    ensures Sum(f, a) == Sum(f, b)
    decreases |b|
  {
    if b == [] {
      SumZero(f, a);
    } else {
      assert b[0] in b;
      var i :| 0 <= i < |a| && a[i] == b[0];
      DropMembers(a, i);
      DropMembers(b, 0);
      SumDrop(f, a, i);
      SumDrop(f, b, 0);
      SumSubset(f, Drop(a, i), Drop(b, 0));
    }
  }

  /** What the link maps weigh less once the given nodes are gone. */
  lemma GoneLinks<K(!new)>(u: Universe<K>, s: Cache<K>, n: Sizes, s': Cache<K>, n': Sizes, gone: set<K>)
    requires Good(u, s, n, [], multiset{}) && Good(u, s', n', [], multiset{}) && Kept(s, s')
    requires s'.d.Keys == s.d.Keys - gone && gone <= s.d.Keys
    ensures n.links - n'.links == Sum(GoneMaps(s.d, gone), s.order)
  {
    hide Inv;
    hide LinkBytes;
    OrderKeys(u, s, n);
    OrderKeys(u, s', n');
    hide Good;
    hide Distinct;
    hide MetaBytes;
    KeptMaps(s, s');
    hide Kept;
    MetaSame(u.zero, s.d, s'.d);
    MapsSplit(s.d, s'.d, s.order, s'.order, gone);
  }

  lemma MetaSame<K(!new)>(zero: K, d: Dirties<K>, d': Dirties<K>)
    requires zero in d && zero in d' && d'[zero].children == d[zero].children
    ensures MetaBytes(zero, d') == MetaBytes(zero, d)
  {}

  function Staying<K(==)>(d: Dirties<K>, gone: set<K>): (f: K -> int) {
    h => if h in gone then 0 else MapBytesOf(d)(h)
  }

  lemma MapsSplit<K(!new)>(d: Dirties<K>, d': Dirties<K>, order: seq<K>, order': seq<K>, gone: set<K>)
    requires Distinct(order) && Distinct(order')
    requires forall x :: x in order' <==> x in order && x !in gone
    requires forall x :: x in order' ==> x in d && x in d' && d'[x].children == d[x].children
    ensures Sum(MapBytesOf(d), order) == Sum(MapBytesOf(d'), order') + Sum(GoneMaps(d, gone), order)
  {
    hide Distinct;
    hide LinkBytes;
    var stay := Staying(d, gone);
    forall x | x in order
      ensures stay(x) + GoneMaps(d, gone)(x) == MapBytesOf(d)(x)
    {
      GoneMapsAt(d, gone, x);
    }
    SumAdd(stay, GoneMaps(d, gone), MapBytesOf(d), order);
    forall x | x in order'
      ensures stay(x) == MapBytesOf(d')(x)
    {
      GoneMapsAt(d, gone, x);
      GoneMapsAt(d', gone, x);
      LinkSame(d[x], d'[x]);
    }
    forall x | x in order && x !in order'
      ensures stay(x) == 0
    {}
    SumSubset(stay, order, order');
    SumSame(stay, MapBytesOf(d'), order');
  }

  lemma LinkSame<K(!new)>(a: CachedNode<K>, b: CachedNode<K>)
    requires a.children == b.children
    ensures LinkBytes(a) == LinkBytes(b)
  {}

  lemma GoneMapsAt<K(!new)>(d: Dirties<K>, gone: set<K>, x: K)
    ensures MapBytesOf(d)(x) == if x in d then LinkBytes(d[x]) else 0
    ensures GoneMaps(d, gone)(x) == if x in gone then MapBytesOf(d)(x) else 0
    ensures Staying(d, gone)(x) == if x in gone then 0 else MapBytesOf(d)(x)
    ensures x in d ==> MapBytesOf(d)(x) >= 0 && (MapBytesOf(d)(x) == 0 <==> d[x].children.None?)
  {}

  lemma Strays<K(!new)>(u: Universe<K>, s: Cache<K>, n: Sizes, s': Cache<K>, n': Sizes, gone: set<K>)
    requires Good(u, s, n, [], multiset{}) && Good(u, s', n', [], multiset{}) && Kept(s, s')
    requires s'.d.Keys == s.d.Keys - gone && gone <= s.d.Keys
    ensures n.links - n'.links == Sum(GoneMaps(s.d, gone), s.order) >= 0
    ensures n.links == n'.links <==> forall x :: x in gone ==> s.d[x].children.None?
    ensures n == Weight(u.zero, s.d, s.order, []) && n' == Weight(u.zero, s'.d, s'.order, [])
  {
    hide Good;
    hide Kept;
    hide Weight;
    hide Sum;
    hide GoneMaps;
    hide Distinct;
    GoneLinks(u, s, n, s', n', gone);
    OrderKeys(u, s, n);
    OrderKeys(u, s', n');
    NoneStrayed(s.d, gone, s.order);
    WeighedAs(u, s, n);
    WeighedAs(u, s', n');
  }

  /** What has left the cache is what was reached from the root, and so is what has come to the disk. */
  lemma CommitDone<K(!new)>(u: Universe<K>, s: Cache<K>, n: Sizes, s': Cache<K>, n': Sizes, gone: set<K>, root: K)
    requires Good(u, s, n, [], multiset{}) && Good(u, s', n', [], multiset{}) && Kept(s, s')
    requires Swept(s.d, s'.d, {}, gone) && (root in s.d ==> root in gone)
    requires forall x :: x in gone ==> Reaches(s.d, root, x)
    requires forall x :: x in s'.disk ==> x in s.disk || x in gone
    ensures s'.d.Keys == s.d.Keys - gone && s'.disk.Keys == s.disk.Keys + gone && gone <= s.d.Keys
    ensures forall x :: x in gone <==> Reaches(s.d, root, x)
    ensures n.links - n'.links == Sum(GoneMaps(s.d, gone), s.order) >= 0
    ensures n.links == n'.links <==> forall x :: x in gone && x in s.d ==> s.d[x].children.None?
  {
    hide Good;
    hide Kept;
    hide Reaches;
    hide Sum;
    hide GoneMaps;
    hide Swept;
    hide Weight;
    GoneReached(s.d, s'.d, gone, root);
    GoneStored(s, s', gone);
    Strays(u, s, n, s', n', gone);
  }

  lemma WeighedAs<K(!new)>(u: Universe<K>, s: Cache<K>, n: Sizes)
    requires Good(u, s, n, [], multiset{})
    ensures n == Weight(u.zero, s.d, s.order, [])
  {
    hide Inv;
    hide Weight;
  }

  lemma KeptMaps<K(!new)>(s: Cache<K>, s': Cache<K>)
    requires Kept(s, s')
    ensures forall h :: h in s'.d ==> h in s.d && s'.d[h].children == s.d[h].children
  {
    hide Cnt;
  }

  lemma OrderKeys<K(!new)>(u: Universe<K>, s: Cache<K>, n: Sizes)
    requires Good(u, s, n, [], multiset{})
    ensures Distinct(s.order) && u.zero in s.d && u.zero !in s.order
    ensures forall h :: h in s.d <==> h in s.order || h == u.zero
    ensures n.links == Sum(MapBytesOf(s.d), s.order) + MetaBytes(u.zero, s.d)
  {
    hide Placed;
    hide Counted;
    hide Genuine;
    hide Refs;
    hide Forward;
    hide Backward;
    hide Distinct;
    ChainFacts(u.zero, s.d, s.order, s.oldest, s.newest);
  }

  /** Nothing has strayed exactly if no node that left had a link map. */
  lemma NoneStrayed<K(!new)>(d: Dirties<K>, gone: set<K>, order: seq<K>)
    requires gone <= d.Keys && forall x :: x in gone ==> x in order
    ensures Sum(GoneMaps(d, gone), order) >= 0
    ensures Sum(GoneMaps(d, gone), order) == 0 <==> forall x :: x in gone ==> d[x].children.None?
  {
    hide LinkBytes;
    hide MapBytesOf;
    hide GoneMaps;
    var f := GoneMaps(d, gone);
    forall x
      ensures f(x) >= 0 && (f(x) == 0 <==> x in gone ==> d[x].children.None?)
    {
      GoneMapsAt(d, gone, x);
    }
    SumZero(f, order);
  }

  // ---- batches ----

  datatype Put<K> = Put(key: K, value: seq<byte>)

  const IDEAL_BATCH_SIZE := 100 * 1024

  function KeysOf<K(==)>(batch: seq<Put<K>>): (ks: set<K>) {
    set p | p in batch :: p.key
  }

  lemma NoKeys<K(!new)>()
    ensures KeysOf<K>([]) == {}
  {}

  lemma KeysSnoc<K(!new)>(batch: seq<Put<K>>, p: Put<K>)
    ensures KeysOf(batch + [p]) == KeysOf(batch) + {p.key}
  {
    var all := batch + [p];
    assert all[|batch|] == p;
    forall q | q in batch ensures q in all {}
  }

  function ValueSize<K>(batch: seq<Put<K>>): (n: nat) {
    if batch == [] then 0 else |batch[0].value| + ValueSize(batch[1..])
  }

  /** The disk after a batch. */
  function Written<K(==)>(disk: map<K, seq<byte>>, batch: seq<Put<K>>): (r: map<K, seq<byte>>) {
    if batch == [] then disk
    else
      var last := batch[|batch| - 1];
      Written(disk, batch[..|batch| - 1])[last.key := last.value]
  }

  lemma {:induction false} WrittenKeys<K(!new)>(disk: map<K, seq<byte>>, batch: seq<Put<K>>)
    ensures Written(disk, batch).Keys == disk.Keys + KeysOf(batch)
    ensures forall h :: h in Written(disk, batch) ==>
      || (h in disk && Written(disk, batch)[h] == disk[h])
      || exists p :: p in batch && p.key == h && p.value == Written(disk, batch)[h]
  {
    if batch != [] {
      var init := batch[..|batch| - 1];
      WrittenKeys(disk, init);
      assert batch == init + [batch[|batch| - 1]];
    }
  }

  /** The disk after a batch, and which of it came there as blobs only. */
  function Saved<K(==)>(s: Cache<K>, batch: seq<Put<K>>): (s': Cache<K>) {
    var ks := KeysOf(batch);
    var plain := set h | h in s.plain + ks && (h in s.plain || h !in s.disk)
                         && !(h in ks && h in s.d && s.d[h].kids != []);
    s.(disk := Written(s.disk, batch), plain := plain)
  }

  /** Entries are in the cache or already stored, and come after what they refer to. */
  ghost predicate Ready<K(!new)>(u: Universe<K>, s: Cache<K>, batch: seq<Put<K>>) {
    forall i :: 0 <= i < |batch| ==>
      var x := batch[i].key;
      && x != u.zero && batch[i].value == u.blob(x) && (x in s.d || x in s.disk)
      && (x in s.d ==> forall c :: Cnt(s.d[x], c) > 0 ==> c in s.disk || c in KeysOf(batch[..i]))
  }

  /** All that the given nodes refer to is stored. */
  ghost predicate Grounded<K(!new)>(s: Cache<K>, ks: set<K>) {
    forall x, c :: x in ks && x in s.d && Cnt(s.d[x], c) > 0 ==> c in s.disk
  }

  lemma WriteGood<K(!new)>(u: Universe<K>, s: Cache<K>, size: Sizes, batch: seq<Put<K>>)
    requires Good(u, s, size, [], multiset{}) && Ready(u, s, batch)
    ensures
      var s' := Saved(s, batch);
      && Good(u, s', size, [], multiset{}) && Kept(s, s') && Grounded(s', KeysOf(batch))
      && KeysOf(batch) <= s'.disk.Keys
  {
    hide Good;
    hide Written;
    hide Cnt;
    var disk' := Written(s.disk, batch);
    WrittenKeys(s.disk, batch);
    forall i | 0 <= i < |batch|
      ensures KeysOf(batch[..i]) <= KeysOf(batch)
    {}
    WriteClosed(u, s, size, batch);
    Stored(u, s, size, disk', Saved(s, batch).plain);
    forall x, c | x in KeysOf(batch) && x in s.d && Cnt(s.d[x], c) > 0
      ensures c in disk'
    {
      var p :| p in batch && p.key == x;
      var i :| 0 <= i < |batch| && batch[i] == p;
    }
    forall h | h in disk'
      ensures h in s.disk || h in s.d
    {
      if h !in s.disk {
        var p :| p in batch && p.key == h;
      }
    }
  }

  lemma WriteClosed<K(!new)>(u: Universe<K>, s: Cache<K>, size: Sizes, batch: seq<Put<K>>)
    requires Good(u, s, size, [], multiset{}) && Ready(u, s, batch)
    ensures Closed(u, Saved(s, batch).disk, Saved(s, batch).plain)
  {
    hide Good;
    hide Written;
    hide Ready;
    hide KeysOf;
    var s' := Saved(s, batch);
    WrittenKeys(s.disk, batch);
    PlainStored(u, s, size);
    forall h | h in s'.disk
      ensures h != u.zero && s'.disk[h] == u.blob(h)
    {
      WriteBlob(u, s, size, batch, h);
    }
    forall h, c | h in s'.disk && h !in s'.plain && c in u.kids(h)
      ensures c in s'.disk
    {
      if h in KeysOf(batch) && h in s.d && s.d[h].kids != [] {
        WriteKid(u, s, size, batch, h, c);
      } else {
        StoredKids(u, s, size, h, c);
      }
    }
  }

  lemma PlainStored<K(!new)>(u: Universe<K>, s: Cache<K>, size: Sizes)
    requires Good(u, s, size, [], multiset{})
    ensures s.plain <= s.disk.Keys && u.zero !in s.disk
  {
    hide Chain;
    hide Keyed;
    hide Placed;
    hide Counted;
    hide Genuine;
    hide Rooted;
    hide Weight;
  }

  lemma WriteBlob<K(!new)>(u: Universe<K>, s: Cache<K>, size: Sizes, batch: seq<Put<K>>, h: K)
    requires Good(u, s, size, [], multiset{}) && Ready(u, s, batch) && h in Written(s.disk, batch)
    ensures h != u.zero && Written(s.disk, batch)[h] == u.blob(h)
  {
    hide Good;
    hide Written;
    hide Cnt;
    hide KeysOf;
    var disk' := Written(s.disk, batch);
    WrittenKeys(s.disk, batch);
    PlainStored(u, s, size);
    if h in s.disk && disk'[h] == s.disk[h] {
      StoredBlob(u, s, size, h);
    } else {
      var p :| p in batch && p.key == h && p.value == disk'[h];
      var i :| 0 <= i < |batch| && batch[i] == p;
    }
  }

  lemma WriteKid<K(!new)>(u: Universe<K>, s: Cache<K>, size: Sizes, batch: seq<Put<K>>, h: K, c: K)
    requires Good(u, s, size, [], multiset{}) && Ready(u, s, batch)
    requires h in KeysOf(batch) && h in s.d && s.d[h].kids != [] && c in u.kids(h)
    ensures c in Written(s.disk, batch)
  {
    hide Good;
    hide Written;
    hide Cnt;
    hide Refs;
    var p :| p in batch && p.key == h;
    var i :| 0 <= i < |batch| && batch[i] == p;
    var _ := Listed(u, s, size, [], multiset{}, h);
    KidsCounted(s.d[h], c);
    WrittenKeys(s.disk, batch);
    assert KeysOf(batch[..i]) <= KeysOf(batch);
  }

  lemma KidsCounted<K(!new)>(e: CachedNode<K>, c: K)
    requires c in e.kids
    ensures Cnt(e, c) > 0
  {
    assert c in multiset(e.kids);
  }

  lemma ReadyNone<K(!new)>(u: Universe<K>, s: Cache<K>)
    ensures Ready(u, s, [])
  {}

  lemma KeptStored<K(!new)>(s: Cache<K>, s': Cache<K>)
    requires Kept(s, s')
    ensures forall h :: h in s.disk ==> h in s'.disk
  {}

  lemma KeptKnown<K(!new)>(s: Cache<K>, s': Cache<K>, h: K)
    requires Kept(s, s') && (h in s.d || h in s.disk)
    ensures h in s'.d || h in s'.disk
  {}

  /** What a listed node refers to is in the cache or on disk. */
  lemma ChildrenKnown<K(!new)>(u: Universe<K>, s: Cache<K>, size: Sizes, h: K, cs: seq<K>)
    requires Good(u, s, size, [], multiset{}) && h in s.order && h in s.d
    requires forall c :: multiset(cs)[c] == Cnt(s.d[h], c)
    ensures forall c :: c in cs ==> c in s.d || c in s.disk
  {
    hide Cnt;
    hide Chain;
    hide Keyed;
    hide Rooted;
    hide Closed;
    hide Genuine;
    hide Counted;
    hide Weight;
    ChainFacts(u.zero, s.d, s.order, s.oldest, s.newest);
    var i :| 0 <= i < |s.order| && s.order[i] == h;
    forall c | c in cs
      ensures c in s.d || c in s.disk
    {
      assert multiset(cs)[c] > 0;
      assert Cnt(s.d[s.order[i]], c) > 0;
    }
  }

  lemma ReadyAppend<K(!new)>(u: Universe<K>, s: Cache<K>, batch: seq<Put<K>>, p: Put<K>)
    requires Ready(u, s, batch) && p.key != u.zero && p.value == u.blob(p.key) && (p.key in s.d || p.key in s.disk)
    requires p.key in s.d ==> forall c :: Cnt(s.d[p.key], c) > 0 ==> c in s.disk || c in KeysOf(batch)
    ensures Ready(u, s, batch + [p]) && KeysOf(batch + [p]) == KeysOf(batch) + {p.key}
  {
    hide Cnt;
    var b := batch + [p];
    assert b[..|batch|] == batch;
    KeysSnoc(batch, p);
    hide KeysOf;
    forall i | 0 <= i < |b|
      ensures var x := b[i].key;
        && x != u.zero && b[i].value == u.blob(x) && (x in s.d || x in s.disk)
        && (x in s.d ==> forall c :: Cnt(s.d[x], c) > 0 ==> c in s.disk || c in KeysOf(b[..i]))
    {
      if i < |batch| {
        assert b[i] == batch[i] && b[..i] == batch[..i];
      } else {
        assert b[i] == p;
      }
    }
  }

  /** A node may follow its children into a batch. */
  lemma ReadyPut<K(!new)>(u: Universe<K>, s0: Cache<K>, size: Sizes, s: Cache<K>, batch: seq<Put<K>>, h: K, cs: seq<K>)
    requires Good(u, s0, size, [], multiset{}) && Kept(s0, s) && Ready(u, s, batch) && h in s0.d && h != u.zero
    requires forall c :: multiset(cs)[c] == Cnt(s0.d[h], c)
    requires forall c :: c in cs ==> c in s.disk || c in KeysOf(batch)
    ensures Ready(u, s, batch + [Put(h, s0.d[h].blob)])
  {
    hide Good;
    hide Cnt;
    hide GenuineNode;
    hide Ready;
    var _ := Listed(u, s0, size, [], multiset{}, h);
    BlobOf(u, h, s0.d[h]);
    if h in s.d {
      CntSame(s0.d[h], s.d[h]);
      forall c | Cnt(s.d[h], c) > 0
        ensures c in s.disk || c in KeysOf(batch)
      {
        assert multiset(cs)[c] > 0;
      }
    }
    ReadyAppend(u, s, batch, Put(h, s0.d[h].blob));
  }

  lemma BlobOf<K(!new)>(u: Universe<K>, h: K, e: CachedNode<K>)
    requires GenuineNode(u, h, e)
    ensures e.blob == u.blob(h)
  {}

  const CACHED_NODE_SIZE := 96

  /** What the size report loses when a node leaves the cache. */
  function Freed<K(==)>(d: Dirties<K>): (f: K -> int) {
    h => NodeBytes(d)(h) + MapBytesOf(d)(h) + CACHED_NODE_SIZE
  }

  /** The size report; total is the sum of the two size counters. */
  function Report<K(==)>(zero: K, d: Dirties<K>, total: int): (n: int) {
    total + (|d| - 1) * CACHED_NODE_SIZE - MetaBytes(zero, d)
  }

  lemma ReportTrim<K(!new)>(zero: K, d: Dirties<K>, total: int, h: K, freed: int)
    requires h in d && h != zero
    ensures Report(zero, d - {h}, total - freed) == Report(zero, d, total) - freed - CACHED_NODE_SIZE
  {
    assert (d - {h}).Keys == d.Keys - {h};
  }

  lemma ReportLink<K(!new)>(zero: K, d: Dirties<K>, total: int, h: K)
    requires h in d
    ensures Report(zero, SetPrev(d, h, zero), total) == Report(zero, d, total)
  {
    assert SetPrev(d, h, zero).Keys == d.Keys;
  }

  lemma {:induction false} SumTake<K>(f: K -> int, s: seq<K>, k: nat)
    requires k < |s|
    ensures Sum(f, s[..k + 1]) == Sum(f, s[..k]) + f(s[k])
  {
    assert s[..k + 1] == s[..k] + [s[k]];
    SumConcat(f, s[..k], [s[k]]);
    assert Sum(f, [s[k]]) == f(s[k]);
  }

  /** The walk of Cap: everything before position k is written or batched. */
  ghost predicate Walked<K(!new)>(u: Universe<K>, s: Cache<K>, batch: seq<Put<K>>, k: nat) {
    k <= |s.order| && Ready(u, s, batch) && forall x :: x in s.order[..k] ==> x in s.disk || x in KeysOf(batch)
  }

  lemma WalkOne<K(!new)>(u: Universe<K>, s: Cache<K>, size: Sizes, batch: seq<Put<K>>, k: nat)
    requires Good(u, s, size, [], multiset{}) && Walked(u, s, batch, k) && k < |s.order|
    ensures s.order[k] in s.d && Walked(u, s, batch + [Put(s.order[k], s.d[s.order[k]].blob)], k + 1)
  {
    hide Good;
    hide Cnt;
    hide GenuineNode;
    hide Ready;
    var h := s.order[k];
    Members(u, s, size, [], multiset{});
    var _ := Listed(u, s, size, [], multiset{}, h);
    BlobOf(u, h, s.d[h]);
    assert s.order[..k + 1] == s.order[..k] + [h];
    PlacedAt(u, s, size, k);
    ReadyAppend(u, s, batch, Put(h, s.d[h].blob));
  }

  lemma PlacedAt<K(!new)>(u: Universe<K>, s: Cache<K>, size: Sizes, k: nat)
    requires Good(u, s, size, [], multiset{}) && k < |s.order| && s.order[k] in s.d
    ensures forall c :: Cnt(s.d[s.order[k]], c) > 0 ==> c in s.disk || c in s.order[..k]
    ensures s.d[s.order[k]].flushNext == NextOf(u.zero, s.order, k)
  {
    hide Cnt;
    hide Keyed;
    hide Rooted;
    hide Closed;
    hide Genuine;
    hide Counted;
    hide Weight;
  }

  lemma WalkStart<K(!new)>(u: Universe<K>, s: Cache<K>, size: Sizes, f: K -> int)
    requires Good(u, s, size, [], multiset{})
    ensures Walked(u, s, [], 0) && s.oldest == (if |s.order| > 0 then s.order[0] else u.zero)
    ensures Sum(f, s.order[..0]) == 0
  {
    hide Refs;
    hide Cnt;
    hide Rooted;
    hide Closed;
    hide Genuine;
    hide Counted;
    hide Weight;
    hide Placed;
  }

  lemma WalkNext<K(!new)>(u: Universe<K>, s: Cache<K>, size: Sizes, k: nat)
    requires Good(u, s, size, [], multiset{}) && k < |s.order|
    ensures var h := s.order[k];
      && h in s.d && s.d[h].flushNext == NextOf(u.zero, s.order, k)
      && Sum(Freed(s.d), s.order[..k + 1]) ==
        Sum(Freed(s.d), s.order[..k]) + HASH_LENGTH + s.d[h].size + LinkBytes(s.d[h]) + CACHED_NODE_SIZE
  {
    hide Good;
    hide LinkBytes;
    Members(u, s, size, [], multiset{});
    PlacedAt(u, s, size, k);
    SumTake(Freed(s.d), s.order, k);
    assert Freed(s.d)(s.order[k]) == NodeBytes(s.d)(s.order[k]) + MapBytesOf(s.d)(s.order[k]) + CACHED_NODE_SIZE;
  }

  lemma WalkWritten<K(!new)>(u: Universe<K>, s: Cache<K>, size: Sizes, batch: seq<Put<K>>, k: nat)
    requires Good(u, s, size, [], multiset{}) && Walked(u, s, batch, k)
    ensures
      var s' := Saved(s, batch);
      && Good(u, s', size, [], multiset{}) && Kept(s, s') && Walked(u, s', [], k)
      && forall x :: x in s.order[..k] ==> x in s'.disk
  {
    hide Good;
    hide Cnt;
    hide Written;
    WriteGood(u, s, size, batch);
    KeptStored(s, Saved(s, batch));
    hide Kept;
  }

  /** The walk ends at the zero hash only past the last node. */
  lemma WalkEnd<K(!new)>(u: Universe<K>, s: Cache<K>, size: Sizes, k: nat)
    requires Good(u, s, size, [], multiset{}) && k <= |s.order|
    ensures (if k < |s.order| then s.order[k] else u.zero) == u.zero ==> k == |s.order|
  {
    hide Good;
    Members(u, s, size, [], multiset{});
  }

  /** The first node of the list leaves the cache once it is on disk. */
  lemma Behead<K(!new)>(u: Universe<K>, s: Cache<K>, size: Sizes)
    requires Good(u, s, size, [], multiset{}) && s.order != [] && s.order[0] in s.disk
    ensures s.order[0] in s.d && s.oldest == s.order[0]
    ensures
      var h := s.order[0];
      var s' := s.(d := s.d - {h}, order := s.order[1..], oldest := s.d[h].flushNext);
      && Good(u, s', Without(size, s.d[h]), [], multiset{})
      && Kept(s, s') && h != u.zero
  {
    hide Good;
    hide Cnt;
    hide LinkBytes;
    hide Kept;
    var h := s.order[0];
    Members(u, s, size, [], multiset{});
    PlacedAt(u, s, size, 0);
    Uncache(u, s, size, 0);
    FirstOldest(u, s, size);
    var next := s.d[h].flushNext;
    assert Drop(s.order, 0) == s.order[1..];
    var s1 := s.(d := SetPrev(s.d, next, u.zero) - {h}, order := s.order[1..], oldest := next);
    HeadLink(u, s1, Without(size, s.d[h]), s.d[next].flushPrev);
    assert SetPrev(s1.d, next, s.d[next].flushPrev) == s.d - {h};
    KeptRelinked(s, s1, s.d - {h});
  }

  lemma FirstOldest<K(!new)>(u: Universe<K>, s: Cache<K>, size: Sizes)
    requires Good(u, s, size, [], multiset{}) && s.order != []
    ensures s.oldest == s.order[0] && s.order[0] in s.d
    ensures var next := s.d[s.order[0]].flushNext; next in s.d && next != s.order[0]
  {
    hide Refs;
    hide Cnt;
    hide Rooted;
    hide Closed;
    hide Genuine;
    hide Counted;
    hide Weight;
    hide Placed;
    UnlinkEnds(u.zero, s.d, s.order, s.oldest, s.newest, 0);
  }

  /** List positions up to the stop are told apart by their node. */
  lemma StopUnique<K(!new)>(u: Universe<K>, s: Cache<K>, size: Sizes, j: nat, k: nat)
    requires Good(u, s, size, [], multiset{}) && j <= k <= |s.order|
    ensures (if j < |s.order| then s.order[j] else u.zero) == (if k < |s.order| then s.order[k] else u.zero) ==> j == k
  {
    hide Refs;
    hide Cnt;
    hide Rooted;
    hide Closed;
    hide Genuine;
    hide Counted;
    hide Weight;
    hide Placed;
    hide Forward;
    hide Backward;
  }

  lemma KeptNode<K(!new)>(s: Cache<K>, s': Cache<K>, h: K)
    requires Kept(s, s') && h in s'.d
    ensures h in s.d && SameNode(s.d[h], s'.d[h])
  {
    hide Cnt;
  }

  lemma TrimStep<K(!new)>(u: Universe<K>, s0: Cache<K>, s: Cache<K>, size: Sizes, j: nat)
    requires Good(u, s, size, [], multiset{}) && Kept(s0, s) && j < |s0.order| && s.order == s0.order[j..]
    ensures var h := s0.order[j];
      && s.order[0] == h && h in s.d && h != u.zero && u.zero in s.d && s.oldest == h
      && s.d[h].flushNext == (if j + 1 < |s0.order| then s0.order[j + 1] else u.zero)
      && s.order[1..] == s0.order[j + 1..]
      && Sum(Freed(s0.d), s0.order[..j + 1]) ==
        Sum(Freed(s0.d), s0.order[..j]) + HASH_LENGTH + s.d[h].size + LinkBytes(s.d[h]) + CACHED_NODE_SIZE
  {
    hide Good;
    hide LinkBytes;
    hide Cnt;
    hide Kept;
    var h := s0.order[j];
    FirstOldest(u, s, size);
    KeptNode(s0, s, h);
    Members(u, s, size, [], multiset{});
    PlacedAt(u, s, size, 0);
    SumTake(Freed(s0.d), s0.order, j);
    SameBytes(s0.d[h], s.d[h]);
    assert Freed(s0.d)(h) == NodeBytes(s0.d)(h) + MapBytesOf(s0.d)(h) + CACHED_NODE_SIZE;
  }

  lemma KeptRelinked<K(!new)>(s: Cache<K>, s': Cache<K>, d: Dirties<K>)
    requires Kept(s, s') && d.Keys == s'.d.Keys && forall k :: k in d ==> SameNode(s'.d[k], d[k])
    ensures Kept(s, s'.(d := d))
  {
    hide Cnt;
  }

  class Database<K(!new, ==)> {
    const zero: K
    ghost const u: Universe<K>
    var dirties: Dirties<K>
    var disk: map<K, seq<byte>>
    var oldest: K
    var newest: K
    var dirtiesSize: int
    var childrenSize: int
    ghost var order: seq<K>
    ghost var lost: nat
    ghost var strayed: nat
    ghost var plain: set<K>

    ghost function Now(): (s: Cache<K>)
      reads this
    {
      Cache(dirties, disk, order, oldest, newest, plain)
    }

    /**
     * The two size counters, corrected for what 16-bit additions that wrapped around have lost and
     * for the link bytes that commits have taken off the wrong counter.
     */
    ghost function Bytes(): (n: Sizes)
      reads this
    {
      Sizes(dirtiesSize + lost + strayed, childrenSize - strayed)
    }

    /** Both counters are what the cached nodes and their link maps really take. */
    ghost predicate Exact()
      reads this
    {
      Sizes(dirtiesSize, childrenSize) == TrueWeight(zero, dirties, order)
    }

    ghost predicate Sane(dying: seq<K>, owed: multiset<K>)
      reads this
    {
      zero == u.zero && Good(u, Now(), Bytes(), dying, owed)
    }

    /**
     * They are exactly as long as no addition has wrapped around, no cached blob has 65536 bytes or
     * more, and no commit has met a link map.
     */
    lemma ExactIff()
      requires Sane([], multiset{})
      ensures TrueWeight(zero, dirties, order) ==
        Sizes(dirtiesSize + lost + strayed + Sum(CutBytes(dirties), order), childrenSize - strayed)
      ensures Exact() <==> lost == 0 && strayed == 0 && AllSmall(dirties, order)
    {
      hide Good;
      hide TrueWeight;
      hide AllSmall;
      hide Sum;
      hide CutBytes;
      WeightCut(u, Now(), Bytes());
    }

    /** NewDatabase: only the meta-root is cached. */
    constructor (zero: K, disk: map<K, seq<byte>>, ghost u: Universe<K>, ghost plain: set<K>)
      requires u.Valid() && u.zero == zero && Closed(u, disk, plain)
      ensures Sane([], multiset{}) && this.u == u && this.disk == disk && order == [] && lost == 0 && strayed == 0
      ensures this.plain == plain
      ensures dirties.Keys == {zero} && dirties[zero].children == Some(map[])
    {
      this.zero, this.disk, this.u := zero, disk, u;
      dirties := map[zero := CachedNode([], [], 0, 0, Some(map[]), zero, zero)];
      oldest, newest, dirtiesSize, childrenSize := zero, zero, 0, 0;
      order, lost, strayed, this.plain := [], 0, 0, plain;
    }

    /** insert: a node whose children are cached or on disk joins the end of the flush list. */
    method Insert(h: K, blob: seq<byte>, kids: seq<K>)
      requires Sane([], multiset{}) && blob == u.blob(h) && (kids == u.kids(h) || kids == [])
      requires h !in dirties ==> forall c :: c in kids ==> c in dirties || c in disk
      modifies this`dirties, this`order, this`oldest, this`newest, this`dirtiesSize, this`lost
      ensures Sane([], multiset{})
      ensures h in old(dirties) ==> unchanged(this)
      ensures h !in old(dirties) ==> order == old(order) + [h] && Inserted(old(dirties), dirties, h, blob, kids)
      ensures lost == old(lost) + if h !in old(dirties) && Wraps(blob) then 0x1_0000 else 0
    {
      hide Good;
      hide GenuineNode;
      hide Appended;
      hide Bumped;
      hide Inserted;
      hide Cut16;
      hide Wraps;
      if h in dirties {
        return;
      }
      ghost var s0, n0 := Now(), Bytes();
      var entry := CachedNode(blob, kids, Cut16(|blob|), 0, None, newest, zero);
      NewNode(u, h, entry);
      AddSize(blob);
      BumpParents(kids);
      Append(u, s0, n0, dirties, h, entry);
      InsertedBy(u, s0, n0, dirties, h, entry);
      AppendEntry(h, entry);
      dirtiesSize := dirtiesSize + Cut16(HASH_LENGTH + entry.size);
      lost := lost + if Wraps(blob) then 0x1_0000 else 0;
      assert Now() == s0.(d := dirties, order := s0.order + [h], oldest := oldest, newest := newest);
      assert Bytes() == n0.(nodes := n0.nodes + HASH_LENGTH + entry.size);
    }

    /** InsertBlob: an entry of which no children are looked for. */
    method InsertBlob(h: K, blob: seq<byte>)
      requires Sane([], multiset{}) && blob == u.blob(h)
      modifies this`dirties, this`order, this`oldest, this`newest, this`dirtiesSize, this`lost
      ensures Sane([], multiset{})
      ensures h in old(dirties) ==> unchanged(this)
      ensures h !in old(dirties) ==> order == old(order) + [h] && Inserted(old(dirties), dirties, h, blob, [])
      ensures lost == old(lost) + if h !in old(dirties) && Wraps(blob) then 0x1_0000 else 0
    {
      hide Good;
      hide Inserted;
      hide Wraps;
      Insert(h, blob, []);
    }

    /** The new entry and the flush-list ends. */
    method AppendEntry(h: K, entry: CachedNode<K>)
      requires oldest != zero ==> newest in dirties
      modifies this`dirties, this`order, this`oldest, this`newest
      ensures order == old(order) + [h]
      ensures (dirties, oldest, newest) == old(Appended(zero, dirties, oldest, newest, h, entry))
    {
      dirties := dirties[h := entry];
      if oldest == zero {
        oldest, newest := h, h;
      } else {
        dirties := SetNext(dirties, newest, h);
        newest := h;
      }
      order := order + [h];
    }

    method BumpParents(kids: seq<K>)
      modifies this`dirties
      ensures Bumped(old(dirties), dirties, kids)
    {
      hide Bumped;
      BumpStart(dirties);
      assert kids[..0] == [];
      for i := 0 to |kids|
        invariant Bumped(old(dirties), dirties, kids[..i])
      {
        BumpNext(old(dirties), dirties, kids, i);
        if kids[i] in dirties {
          dirties := Raised(dirties, kids[i]);
        }
      }
      assert kids[..|kids|] == kids;
    }

    /** reference: the parent records a link to the child, unless the child is not cached or already linked. */
    method Reference(child: K, parent: K)
      requires Sane([], multiset{}) && child != zero && parent in dirties
      requires child in dirties && parent != zero ==>
        LinkedTo(dirties[parent], child) || MayLink(u, Now(), child, parent)
      modifies this`dirties, this`childrenSize
      ensures Sane([], multiset{})
      ensures child !in old(dirties) || (parent != zero && LinkedTo(old(dirties[parent]), child)) ==> unchanged(this)
      ensures child in old(dirties) && !(parent != zero && LinkedTo(old(dirties[parent]), child)) ==>
        child != parent && dirties == Raised(old(dirties), child)[parent := Linked(old(dirties[parent]), child)]
    {
      hide Good;
      if child !in dirties {
        return;
      }
      if parent != zero && LinkedTo(dirties[parent], child) {
        return;
      }
      ghost var s0, n0 := Now(), Bytes();
      Link(u, s0, n0, child, parent);
      MetaMap(u, s0, n0);
      LinkedBytes(Raised(dirties, child)[parent], child, parent == zero);
      hide MapBytes;
      hide Linked;
      if dirties[parent].children.None? {
        childrenSize := childrenSize + CHILDREN_SIZE;
      }
      dirties := Raised(dirties, child);
      dirties := dirties[parent := Linked(dirties[parent], child)];
      if dirties[parent].children.value[child] == 1 {
        childrenSize := childrenSize + LINK_SIZE;
      }
      assert Now() == s0.(d := dirties);
      assert Bytes() == Remapped(n0, MapBytes(s0.d[parent], zero == parent), MapBytes(dirties[parent], zero == parent));
    }

    /** Dereference: the meta-root gives up a root. */
    method Dereference(root: K)
      requires Sane([], multiset{})
      requires root in dirties && root != zero ==>
        Cnt(dirties[zero], root) > 0 || root in disk || dirties[root].parents == 0
      modifies this`dirties, this`order, this`oldest, this`newest, this`dirtiesSize, this`childrenSize
      ensures Sane([], multiset{}) && NoLeak(old(dirties), old(order), dirties, order)
      ensures root == zero ==> unchanged(this)
      ensures root != zero ==> dirties[zero].children == Unlinked(old(dirties[zero]), root).children
      ensures old(AllParented(dirties, disk, order)) && dirties[zero].children == Some(map[]) ==> dirties.Keys == {zero}
    {
      hide Good;
      hide NoLeak;
      hide AllParented;
      hide Unlinked;
      ghost var d0, o0 := dirties, order;
      Members(u, Now(), Bytes(), [], multiset{});
      NoLeakSelf(d0, o0);
      if root == zero {
        if AllParented(d0, disk, o0) && dirties[zero].children == Some(map[]) {
          NothingHeld(u, Now(), Bytes());
        }
        return;
      }
      Deref(root, zero, [], multiset{});
      assert multiset{} - multiset{root} == multiset{};
      if AllParented(d0, disk, o0) && dirties[zero].children == Some(map[]) {
        ParentedKept(u, Now(), Bytes(), d0, o0);
        NothingHeld(u, Now(), Bytes());
      }
    }

    /** Node: a cached or stored node is read with its true content. */
    method Node(h: K) returns (r: Option<seq<byte>>)
      requires Sane([], multiset{})
      ensures r == if Readable(zero, Now(), h) then Some(u.blob(h)) else None
    {
      hide Good;
      if h == zero {
        return None;
      }
      if h in dirties {
        ghost var _ := Listed(u, Now(), Bytes(), [], multiset{}, h);
        return Some(dirties[h].blob);
      }
      if h in disk {
        StoredBlob(u, Now(), Bytes(), h);
        return Some(disk[h]);
      }
      return None;
    }

    /** All children of a node: the external ones in no particular order, then the embedded ones. */
    method Childs(e: CachedNode<K>) returns (cs: seq<K>)
      ensures ChildList(e, cs)
    {
      cs := [];
      if e.children.Some? {
        var left := e.children.value.Keys;
        while left != {}
          invariant left <= e.children.value.Keys
          invariant forall c :: multiset(cs)[c] == if c in e.children.value && c !in left then 1 else 0
          decreases |left|
        {
          var c :| c in left;
          cs, left := cs + [c], left - {c};
        }
      }
      cs := cs + e.kids;
    }

    /** The first half of dereference: the parent gives up its recorded link, if it has one. */
    method DropLink(child: K, parent: K)
      requires parent in dirties
      modifies this`dirties, this`childrenSize
      ensures dirties == old(dirties)[parent := Unlinked(old(dirties[parent]), child)]
      ensures childrenSize == old(childrenSize) - old(LinkBytes(dirties[parent])) + LinkBytes(dirties[parent])
    {
      var e := dirties[parent];
      if e.children.Some? && child in e.children.value && e.children.value[child] > 0 {
        var m := e.children.value[child := e.children.value[child] - 1];
        if m[child] == 0 {
          assert m - {child} == e.children.value - {child};
          m := m - {child};
          childrenSize := childrenSize - LINK_SIZE;
        }
        dirties := dirties[parent := e.(children := Some(m))];
      }
    }

    /** dereference: the child loses a reference, and goes with everything that dies with it. */
    method Deref(child: K, parent: K, ghost dying: seq<K>, ghost owed: multiset<K>)
      requires Sane(dying, owed) && child != zero && forall h :: h in dying ==> u.rank(child) < u.rank(h)
      requires parent == zero || (dying != [] && parent == dying[|dying| - 1])
      requires parent == zero ==> dying == [] && owed == multiset{} && zero in dirties && (child in dirties ==>
          Cnt(dirties[zero], child) > 0 || child in disk || dirties[child].parents == 0)
      requires parent != zero ==> parent in dirties && owed[child] > 0
      modifies this`dirties, this`order, this`oldest, this`newest, this`dirtiesSize, this`childrenSize
      ensures Sane(dying, owed - multiset{child})
      ensures Untouched(zero, old(dirties)[parent := Unlinked(old(dirties[parent]), child)], dirties, dying)
      ensures NoLeak(old(dirties), old(order), dirties, order)
      decreases u.rank(child), 3
    {
      hide Good;
      hide Cnt;
      hide Unlinked;
      hide LinkBytes;
      hide NoLeak;
      hide Untouched;
      ghost var s0, n0, owed1 := Now(), Bytes(), owed;
      DropLink(child, parent);
      if parent == zero {
        LoseRoot(u, s0, n0, child);
        owed1 := if Cnt(s0.d[zero], child) > 0 then multiset{child} else multiset{};
      } else {
        LoseLink(u, s0, n0, dying, owed, parent, child);
      }
      assert Now() == s0.(d := dirties);
      ghost var s1, n1 := Now(), Bytes();
      Release(child, dying, owed1);
      assert owed1 - multiset{child} == owed - multiset{child};
      Members(u, s1, n1, dying, owed1);
      NoLeakTrans(s0.d, s0.order, s1.d, s1.order, dirties, order);
    }

    method Release(child: K, ghost dying: seq<K>, ghost owed: multiset<K>)
      requires Sane(dying, owed) && child != zero && forall h :: h in dying ==> u.rank(child) < u.rank(h)
      requires child in dirties ==> owed[child] > 0 || child in disk || dirties[child].parents == 0
      modifies this`dirties, this`order, this`oldest, this`newest, this`dirtiesSize, this`childrenSize
      ensures Sane(dying, owed - multiset{child})
      ensures Untouched(zero, old(dirties), dirties, dying)
      ensures NoLeak(old(dirties), old(order), dirties, order)
      decreases u.rank(child), 2
    {
      hide Good;
      if child !in dirties {
        Gone(u, Now(), Bytes(), dying, owed, child);
        Members(u, Now(), Bytes(), dying, owed);
        return;
      }
      ReleaseOne(u, Now(), Bytes(), dying, owed, child);
      dirties := Decremented(dirties, child);
      ghost var d1, o1 := dirties, order;
      if dirties[child].parents > 0 {
        return;
      }
      TearDown(child, dying, owed - multiset{child});
      NoLeakGone(old(dirties), d1, o1, dirties, order, child);
    }

    /** The rest of dereference for a node without parents: off the list, children released, entry deleted. */
    method TearDown(child: K, ghost dying: seq<K>, ghost owed: multiset<K>)
      requires Sane(dying, owed) && child != zero && forall h :: h in dying ==> u.rank(child) < u.rank(h)
      requires child in dirties && dirties[child].parents == 0
      modifies this`dirties, this`order, this`oldest, this`newest, this`dirtiesSize, this`childrenSize
      ensures Sane(dying, owed)
      ensures Untouched(zero, old(dirties), dirties, dying)
      ensures NoLeak(old(dirties), old(order), dirties, order) && child !in dirties && child !in order
      decreases u.rank(child), 1
    {
      hide Good;
      hide LinkBytes;
      hide NoLeak;
      hide Untouched;
      hide LinksLeft;
      ghost var s0 := Now();
      var node := dirties[child];
      var cs := TakeOff(child, dying, owed);
      ghost var s1, n1 := Now(), Bytes();
      ReleaseAll(child, cs, dying, owed, node.children.Some?);
      ghost var s2, n2 := Now(), Bytes();
      Finish(u, s0, s1, n1, s2, n2, dying, owed, cs, child, node.size, node.children.Some?);
      dirties := dirties - {child};
      dirtiesSize := dirtiesSize - (HASH_LENGTH + node.size);
      if node.children.Some? {
        childrenSize := childrenSize - CHILDREN_SIZE;
      }
      assert Now() == s2.(d := dirties);
      assert Bytes() ==
        Sizes(n2.nodes - HASH_LENGTH - node.size, n2.links - if node.children.Some? then CHILDREN_SIZE else 0);
    }

    /** The node leaves the flush list; its children are still to be released. */
    method TakeOff(h: K, ghost dying: seq<K>, ghost owed: multiset<K>) returns (cs: seq<K>)
      requires Sane(dying, owed) && h != zero && h !in dying
      requires h in dirties && dirties[h].parents == 0
      modifies this`dirties, this`order, this`oldest, this`newest
      ensures Sane(dying + [h], owed + multiset(cs))
      ensures Untouched(zero, old(dirties), dirties, dying) && NoLeak(old(dirties), old(order), dirties, order)
      ensures h in dirties && LinksLeft(dirties[h], cs, old(dirties[h].children.Some?))
      ensures dirties[h].size == old(dirties[h].size)
      ensures forall c :: c in cs ==> c != zero && u.rank(c) < u.rank(h)
    {
      hide Good;
      hide Cnt;
      hide NoLeak;
      hide Untouched;
      hide GenuineNode;
      hide ChildList;
      hide Refs;
      hide Unlink;
      hide LinksLeft;
      ghost var s0, n0 := Now(), Bytes();
      ghost var i := Listed(u, s0, n0, dying, owed, h);
      Members(u, s0, n0, dying, owed);
      cs := Childs(dirties[h]);
      ChildrenBelow(u, h, s0.d[h], cs);
      Unhook(u, s0, n0, dying, owed, i, multiset(cs));
      var (d', o', n') := Unlink(zero, dirties, oldest, newest, h);
      dirties, oldest, newest := d', o', n';
      order := Drop(order, i);
      assert Now() == s0.(d := d', order := order, oldest := o', newest := n');
      SameLinks(s0.d[h], d'[h], cs);
    }

    /** The loop of dereference over the children of a node that is being torn down. */
    method ReleaseAll(p: K, cs: seq<K>, ghost dying: seq<K>, ghost owed: multiset<K>, ghost some: bool)
      requires Sane(dying + [p], owed + multiset(cs)) && p in dirties && LinksLeft(dirties[p], cs, some)
      requires forall c :: c in cs ==> c != zero && u.rank(c) < u.rank(p)
      requires forall h :: h in dying ==> u.rank(p) < u.rank(h)
      modifies this`dirties, this`order, this`oldest, this`newest, this`dirtiesSize, this`childrenSize
      ensures Sane(dying + [p], owed)
      ensures Untouched(zero, old(dirties), dirties, dying)
      ensures NoLeak(old(dirties), old(order), dirties, order)
      ensures p in dirties && LinksLeft(dirties[p], [], some) && dirties[p].size == old(dirties[p].size)
      decreases u.rank(p), 0
    {
      hide Good;
      hide Cnt;
      hide Unlinked;
      hide NoLeak;
      hide Untouched;
      hide LinksLeft;
      ghost var s0, n0, stack := Now(), Bytes(), dying + [p];
      StackTop(u, s0, n0, dying, p, owed + multiset(cs));
      assert cs[0..] == cs;
      for j := 0 to |cs|
        invariant Sane(stack, owed + multiset(cs[j..]))
        invariant Untouched(zero, s0.d, dirties, dying) && NoLeak(s0.d, s0.order, dirties, order)
        invariant p in dirties && LinksLeft(dirties[p], cs[j..], some) && dirties[p].size == s0.d[p].size
      {
        TakeOne(owed, cs, j);
        ghost var s1, n1, due := Now(), Bytes(), owed + multiset(cs[j..]);
        Deref(cs[j], p, stack, due);
        Members(u, s1, n1, stack, due);
        NoLeakTrans(s0.d, s0.order, s1.d, s1.order, dirties, order);
        LinksStep(zero, s1.d, dirties, dying, p, cs, j, some);
        UntouchedTrans(zero, s0.d, s1.d, dirties, dying);
      }
      assert cs[|cs|..] == [];
      assert owed + multiset(cs[|cs|..]) == owed;
    }

    /** The cleaner's part of a commit: written nodes leave the cache. */
    method Replay(batch: seq<Put<K>>)
      requires Sane([], multiset{}) && Grounded(Now(), KeysOf(batch)) && KeysOf(batch) <= disk.Keys
      requires zero !in KeysOf(batch)
      modifies this`dirties, this`order, this`oldest, this`newest, this`dirtiesSize, this`strayed
      ensures Sane([], multiset{}) && Kept(old(Now()), Now())
      ensures dirties.Keys == old(dirties.Keys) - KeysOf(batch)
    {
      hide Good;
      hide Kept;
      hide Grounded;
      KeptSelf(Now());
      for i := 0 to |batch|
        invariant Sane([], multiset{}) && Kept(old(Now()), Now()) && Grounded(Now(), KeysOf(batch))
        invariant dirties.Keys == old(dirties.Keys) - KeysOf(batch[..i])
      {
        ghost var s0 := Now();
        KeptSelf(s0);
        var h := batch[i].key;
        assert h in KeysOf(batch);
        assert KeysOf(batch[..i + 1]) == KeysOf(batch[..i]) + {h} by {
          assert batch[..i + 1] == batch[..i] + [batch[i]];
        }
        if h in dirties {
          CleanOne(h, batch);
        }
        KeptTrans(old(Now()), s0, Now());
      }
      assert batch[..|batch|] == batch;
    }

    method CleanOne(h: K, ghost batch: seq<Put<K>>)
      requires Sane([], multiset{}) && h in dirties && h in disk && h != zero && h in KeysOf(batch)
      requires Grounded(Now(), KeysOf(batch))
      modifies this`dirties, this`order, this`oldest, this`newest, this`dirtiesSize, this`strayed
      ensures Sane([], multiset{}) && Kept(old(Now()), Now()) && Grounded(Now(), KeysOf(batch))
      ensures dirties.Keys == old(dirties.Keys) - {h}
      ensures dirtiesSize == old(dirtiesSize) - HASH_LENGTH - old(dirties[h].size) - old(LinkBytes(dirties[h]))
      ensures strayed == old(strayed) + old(LinkBytes(dirties[h]))
    {
      hide Good;
      hide Kept;
      hide Unlink;
      ghost var s0, n0 := Now(), Bytes();
      ghost var i := Listed(u, s0, n0, [], multiset{}, h);
      Uncache(u, s0, n0, i);
      var node := dirties[h];
      UnlinkKeys(zero, dirties, oldest, newest, h);
      var (d', o', n') := Unlink(zero, dirties, oldest, newest, h);
      dirties, oldest, newest := d' - {h}, o', n';
      order := Drop(order, i);
      dirtiesSize := dirtiesSize - (HASH_LENGTH + node.size);
      if node.children.Some? {
        dirtiesSize := dirtiesSize - (CHILDREN_SIZE + |node.children.value| * LINK_SIZE);
      }
      strayed := strayed + LinkBytes(node);
      assert Now() == s0.(d := d' - {h}, order := order, oldest := o', newest := n');
      assert Bytes() == Without(n0, node);
      KeptGrounded(s0, Now(), KeysOf(batch));
    }

    /** A batch write followed by its replay; it fails when the disk accepts no more writes. */
    method Flush(batch: seq<Put<K>>, quota: Option<nat>) returns (ok: bool, left: Option<nat>)
      requires Sane([], multiset{}) && Ready(u, Now(), batch)
      modifies this`dirties, this`disk, this`plain, this`order, this`oldest, this`newest, this`dirtiesSize, this`strayed
      ensures Sane([], multiset{}) && Kept(old(Now()), Now())
      ensures ok <==> quota != Some(0)
      ensures left == if ok then Spent(quota) else quota
      ensures !ok ==> unchanged(this)
      ensures ok ==> dirties.Keys == old(dirties.Keys) - KeysOf(batch) && disk.Keys == old(disk.Keys) + KeysOf(batch)
    {
      hide Good;
      hide Kept;
      hide Grounded;
      hide Written;
      ghost var s0, n0 := Now(), Bytes();
      KeptSelf(s0);
      if quota == Some(0) {
        return false, quota;
      }
      WriteGood(u, s0, n0, batch);
      WrittenKeys(disk, batch);
      ghost var later := Saved(Now(), batch).plain;
      disk := Written(disk, batch);
      plain := later;
      ghost var s1 := Now();
      assert s1 == Saved(s0, batch);
      assert zero !in KeysOf(batch);
      Replay(batch);
      KeptTrans(s0, s1, Now());
      return true, Spent(quota);
    }

    /** commit: a node and all it refers to, children first, in batches. */
    method CommitNode(h: K, batch: seq<Put<K>>, quota: Option<nat>, ghost d0: Dirties<K>, ghost start: set<K>)
      returns (ok: bool, batch': seq<Put<K>>, left: Option<nat>, ghost gone: set<K>)
      requires h != zero && Swept(d0, dirties, KeysOf(batch), start) && Sane([], multiset{}) && Ready(u, Now(), batch)
      modifies this`dirties, this`disk, this`plain, this`order, this`oldest, this`newest, this`dirtiesSize, this`strayed
      ensures Spending(ok, quota, left)
      ensures ok ==> forall x :: x in KeysOf(batch) ==> x in disk || x in KeysOf(batch')
      ensures ok && (h in old(dirties) || h in old(disk)) ==> h in disk || h in KeysOf(batch')
      ensures ok ==> start <= gone && (h in d0 ==> h in gone) && Swept(d0, dirties, KeysOf(batch'), gone)
      ensures ok ==> forall x :: x in disk ==> x in old(disk) || x in gone
      ensures ok ==> forall x :: x in gone && x !in start ==> Reaches(d0, h, x)
      ensures Sane([], multiset{}) && Kept(old(Now()), Now()) && (ok ==> Ready(u, Now(), batch'))
      decreases u.rank(h), 1
    {
      hide Good;
      hide Kept;
      hide Ready;
      hide ChildList;
      hide GenuineNode;
      hide Cnt;
      hide Refs;
      hide Swept;
      hide Reaches;
      ghost var s0, n0 := Now(), Bytes();
      KeptSelf(s0);
      ok, batch', left, gone := true, batch, quota, start;
      SweepMember(d0, dirties, KeysOf(batch), start, h);
      if h !in dirties {
        return;
      }
      var node := dirties[h];
      ghost var _ := Listed(u, s0, n0, [], multiset{}, h);
      var cs := Childs(node);
      Members(u, s0, n0, [], multiset{});
      ChildrenBelow(u, h, node, cs);
      ChildrenKnown(u, s0, n0, h, cs);
      AllChildren(cs, node);
      ok, batch', left, gone := CommitChildren(h, cs, batch, quota, d0, start);
      if !ok {
        return;
      }
      ReachSelf(d0, h);
      SweepAdd(d0, dirties, KeysOf(batch'), gone, h);
      ReadyPut(u, s0, n0, Now(), batch', h, cs);
      gone := gone + {h};
      ghost var s1 := Now();
      ok, batch', left := PutNode(h, node.blob, batch', left, d0, gone);
      KeptTrans(s0, s1, Now());
      KeptStored(s1, Now());
    }

    /** The loop of commit over the children of a node. */
    method CommitChildren(h: K, cs: seq<K>, batch: seq<Put<K>>, quota: Option<nat>, ghost d0: Dirties<K>,
                          ghost start: set<K>)
      returns (ok: bool, batch': seq<Put<K>>, left: Option<nat>, ghost gone: set<K>)
      requires h in d0 && forall c :: c in cs ==>
        c != zero && u.rank(c) < u.rank(h) && Cnt(d0[h], c) > 0 && (c in dirties || c in disk)
      requires Swept(d0, dirties, KeysOf(batch), start) && Sane([], multiset{}) && Ready(u, Now(), batch)
      modifies this`dirties, this`disk, this`plain, this`order, this`oldest, this`newest, this`dirtiesSize, this`strayed
      ensures Spending(ok, quota, left)
      ensures ok ==> forall x :: x in KeysOf(batch) || x in cs ==> x in disk || x in KeysOf(batch')
      ensures ok ==> start <= gone && forall x :: x in cs && x in d0 ==> x in gone
      ensures ok ==> Swept(d0, dirties, KeysOf(batch'), gone)
      ensures ok ==> forall x :: x in disk ==> x in old(disk) || x in gone
      ensures ok ==> forall x :: x in gone && x !in start ==> Reaches(d0, h, x)
      ensures Sane([], multiset{}) && Kept(old(Now()), Now()) && (ok ==> Ready(u, Now(), batch'))
      decreases u.rank(h), 0
    {
      hide Good;
      hide Kept;
      hide Ready;
      hide Cnt;
      hide Swept;
      hide Reaches;
      ghost var s0 := Now();
      KeptSelf(s0);
      ok, batch', left, gone := true, batch, quota, start;
      for j := 0 to |cs|
        invariant Spending(true, quota, left)
        invariant forall x :: x in KeysOf(batch) || x in cs[..j] ==> x in disk || x in KeysOf(batch')
        invariant start <= gone && (forall x :: x in cs[..j] && x in d0 ==> x in gone)
        invariant Swept(d0, dirties, KeysOf(batch'), gone)
        invariant forall x :: x in disk ==> x in s0.disk || x in gone
        invariant forall x :: x in gone && x !in start ==> Reaches(d0, h, x)
        invariant Sane([], multiset{}) && Kept(s0, Now()) && Ready(u, Now(), batch')
      {
        ghost var s1, gone1 := Now(), gone;
        KeptKnown(s0, s1, cs[j]);
        ok, batch', left, gone := CommitNode(cs[j], batch', left, d0, gone);
        KeptTrans(s0, s1, Now());
        if !ok {
          return;
        }
        KeptStored(s1, Now());
        ReachChild(d0, start, gone1, gone, h, cs[j]);
      }
      assert cs[..|cs|] == cs;
    }

    /** The end of commit: the node joins the batch, which is flushed when it is large enough. */
    method PutNode(h: K, blob: seq<byte>, batch: seq<Put<K>>, quota: Option<nat>, ghost d0: Dirties<K>,
                   ghost gone: set<K>)
      returns (ok: bool, batch': seq<Put<K>>, left: Option<nat>)
      requires Swept(d0, dirties, KeysOf(batch) + {h}, gone) && Sane([], multiset{})
      requires Ready(u, Now(), batch + [Put(h, blob)])
      modifies this`dirties, this`disk, this`plain, this`order, this`oldest, this`newest, this`dirtiesSize, this`strayed
      ensures Spending(ok, quota, left)
      ensures ok ==> forall x :: x in KeysOf(batch) || x == h ==> x in disk || x in KeysOf(batch')
      ensures ok ==> Swept(d0, dirties, KeysOf(batch'), gone)
      ensures ok ==> forall x :: x in disk ==> x in old(disk) || x in gone
      ensures Sane([], multiset{}) && Kept(old(Now()), Now()) && (ok ==> Ready(u, Now(), batch'))
    {
      hide Good;
      hide Kept;
      hide Ready;
      hide Swept;
      ghost var s0 := Now();
      KeptSelf(s0);
      KeysSnoc(batch, Put(h, blob));
      ok, batch', left := true, batch + [Put(h, blob)], quota;
      if ValueSize(batch') >= IDEAL_BATCH_SIZE {
        SweptKeys(u, s0, d0, batch', gone);
        ok, left := Flush(batch', left);
        if ok {
          SweepFlush(d0, s0, Now(), KeysOf(batch'), gone);
        }
        batch' := [];
        NoKeys<K>();
        ReadyNone(u, Now());
      }
    }

    /**
     * Commit: a node moves to disk and out of the cache together with everything reached from it,
     * and with nothing else. The link maps of those nodes are taken off the wrong counter. It fails
     * only when the disk has refused a write.
     */
    method Commit(root: K, quota: Option<nat>) returns (ok: bool, left: Option<nat>, ghost gone: set<K>)
      requires Sane([], multiset{}) && root != zero
      modifies this`dirties, this`disk, this`plain, this`order, this`oldest, this`newest, this`dirtiesSize, this`strayed
      ensures Spending(ok, quota, left) && (ok && quota.Some? ==> left.value < quota.value)
      ensures ok && root in old(dirties) ==> root in disk
      ensures ok ==> dirties.Keys == old(dirties.Keys) - gone && disk.Keys == old(disk.Keys) + gone
      ensures ok ==> forall x :: x in gone <==> Reaches(old(dirties), root, x)
      ensures ok ==> strayed == old(strayed) + Sum(GoneMaps(old(dirties), gone), old(order))
      ensures ok ==> (strayed == old(strayed) <==>
        forall x :: x in gone && x in old(dirties) ==> old(dirties)[x].children.None?)
      ensures ok ==> (Exact() <==> lost == 0 && strayed == 0 && AllSmall(dirties, order))
      ensures Sane([], multiset{}) && Kept(old(Now()), Now())
    {
      hide Good;
      hide Kept;
      hide Ready;
      hide Reaches;
      hide Cnt;
      hide Sum;
      hide Weight;
      hide GoneMaps;
      hide Swept;
      ghost var s0, n0 := Now(), Bytes();
      ReadyNone(u, s0);
      NoKeys<K>();
      SweepStart(dirties);
      var batch;
      ok, batch, left, gone := CommitNode(root, [], quota, dirties, {});
      if !ok {
        return;
      }
      ghost var s1 := Now();
      SweptKeys(u, s1, s0.d, batch, gone);
      ok, left := Flush(batch, left);
      KeptTrans(s0, s1, Now());
      KeptStored(s1, Now());
      if ok {
        SweepFlush(s0.d, s1, Now(), KeysOf(batch), gone);
        CommitDone(u, s0, n0, Now(), Bytes(), gone, root);
        ExactIff();
      }
    }

    /** The list node at a position, or the zero hash past the end. */
    ghost function Stop(order: seq<K>, k: nat): (h: K)
      requires k <= |order|
    {
      if k < |order| then order[k] else zero
    }

    /** A batch that is large enough is written. */
    method CapFlush(batch: seq<Put<K>>, quota: Option<nat>, ghost k: nat)
      returns (batch': seq<Put<K>>, left: Option<nat>, ok: bool)
      requires Sane([], multiset{}) && k <= |order| && Walked(u, Now(), batch, k)
      modifies this`disk, this`plain
      ensures Sane([], multiset{}) && Kept(old(Now()), Now()) && (ok ==> Walked(u, Now(), batch', k))
      ensures !ok ==> quota == Some(0)
      ensures left == quota || (quota != Some(0) && left == Spent(quota))
    {
      hide Good;
      hide Kept;
      hide Walked;
      ghost var s1 := Now();
      KeptSelf(s1);
      if ValueSize(batch) < IDEAL_BATCH_SIZE {
        return batch, quota, true;
      }
      if quota == Some(0) {
        return batch, quota, false;
      }
      WalkWritten(u, s1, Bytes(), batch, k);
      ghost var later := Saved(Now(), batch).plain;
      disk := Written(disk, batch);
      plain := later;
      assert Now() == Saved(s1, batch);
      return [], Spent(quota), true;
    }

    /** The first phase of Cap: nodes are written from the oldest on, and nothing is uncached. */
    method CapWrite(limit: int, quota: Option<nat>) returns (ok: bool, stop: K, ghost k: nat, ghost size: int)
      requires Sane([], multiset{})
      modifies this`disk, this`plain
      ensures Sane([], multiset{}) && Kept(old(Now()), Now()) && k <= |order|
      ensures !ok ==> quota.Some? && quota.value <= |order|
      ensures ok ==> stop == Stop(order, k) && forall x :: x in order[..k] ==> x in disk
      ensures ok ==> size == Report(zero, dirties, dirtiesSize + childrenSize) - Sum(Freed(dirties), order[..k])
      ensures ok ==> size <= limit || k == |order|
    {
      hide Good;
      hide Kept;
      hide Walked;
      hide Ready;
      hide Freed;
      hide Sum;
      ghost var s0 := Now();
      KeptSelf(s0);
      var total := Report(zero, dirties, dirtiesSize + childrenSize);
      var batch: seq<Put<K>>, left: Option<nat> := [], quota;
      stop, k := oldest, 0;
      WalkStart(u, s0, Bytes(), Freed(dirties));
      while total > limit && stop != zero
        invariant Sane([], multiset{}) && Kept(s0, Now()) && Walked(u, Now(), batch, k)
        invariant k <= |order| && stop == Stop(order, k)
        invariant (quota.None? <==> left.None?) && (quota.Some? ==> quota.value <= left.value + k)
        invariant total == Report(zero, dirties, dirtiesSize + childrenSize) - Sum(Freed(dirties), order[..k])
        decreases |order| - k
      {
        ghost var s1 := Now();
        WalkOne(u, s1, Bytes(), batch, k);
        WalkNext(u, s1, Bytes(), k);
        var node := dirties[stop];
        batch := batch + [Put(stop, node.blob)];
        batch, left, ok := CapFlush(batch, left, k + 1);
        KeptTrans(s0, s1, Now());
        if !ok {
          return false, stop, 0, 0;
        }
        total := total - (HASH_LENGTH + node.size + CACHED_NODE_SIZE);
        if node.children.Some? {
          total := total - (CHILDREN_SIZE + |node.children.value| * LINK_SIZE);
        }
        stop := node.flushNext;
        k := k + 1;
      }
      WalkEnd(u, Now(), Bytes(), k);
      if left == Some(0) {
        return false, stop, 0, 0;
      }
      ghost var s2 := Now();
      WalkWritten(u, s2, Bytes(), batch, k);
      ghost var later := Saved(Now(), batch).plain;
      disk := Written(disk, batch);
      plain := later;
      assert Now() == Saved(s2, batch);
      KeptTrans(s0, s2, Now());
      return true, stop, k, total;
    }

    /** The second phase of Cap: written nodes leave the cache from the oldest on. */
    method CapTrim(stop: K, ghost k: nat)
      requires k <= |order| && stop == Stop(order, k) && (forall x :: x in order[..k] ==> x in disk)
      requires Sane([], multiset{})
      modifies this`dirties, this`order, this`oldest, this`dirtiesSize, this`childrenSize
      ensures order == old(order)[k..]
      ensures Report(zero, dirties, dirtiesSize + childrenSize) ==
        old(Report(zero, dirties, dirtiesSize + childrenSize) - Sum(Freed(dirties), order[..k]))
      ensures Sane([], multiset{}) && Kept(old(Now()), Now())
    {
      hide Good;
      hide Kept;
      hide Freed;
      hide Sum;
      hide LinkBytes;
      hide Report;
      ghost var s0, n0, j := Now(), Bytes(), 0;
      KeptSelf(s0);
      WalkStart(u, s0, n0, Freed(dirties));
      while oldest != stop
        invariant Sane([], multiset{}) && Kept(s0, Now()) && disk == s0.disk
        invariant j <= k && order == s0.order[j..] && oldest == Stop(s0.order, j)
        invariant Report(zero, dirties, dirtiesSize + childrenSize) ==
          Report(zero, s0.d, old(dirtiesSize + childrenSize)) - Sum(Freed(s0.d), s0.order[..j])
        decreases k - j
      {
        StopUnique(u, s0, n0, j, k);
        ghost var s1, n1 := Now(), Bytes();
        ghost var total := dirtiesSize + childrenSize;
        TrimStep(u, s0, s1, n1, j);
        TrimOne();
        ReportTrim(zero, s1.d, total, s1.order[0], HASH_LENGTH + s1.d[s1.order[0]].size + LinkBytes(s1.d[s1.order[0]]));
        KeptTrans(s0, s1, Now());
        j := j + 1;
      }
      StopUnique(u, s0, n0, j, k);
      ghost var s2 := Now();
      CutHead();
      KeptTrans(s0, s2, Now());
    }

    /** The new head of the list forgets the node before it. */
    method CutHead()
      requires Sane([], multiset{})
      modifies this`dirties
      ensures Report(zero, dirties, dirtiesSize + childrenSize) ==
        old(Report(zero, dirties, dirtiesSize + childrenSize))
      ensures Sane([], multiset{}) && Kept(old(Now()), Now())
    {
      hide Good;
      hide Kept;
      hide Report;
      KeptSelf(Now());
      if oldest != zero {
        HeadLink(u, Now(), Bytes(), zero);
        KeptRelinked(Now(), Now(), SetPrev(dirties, oldest, zero));
        ReportLink(zero, dirties, dirtiesSize + childrenSize, oldest);
        dirties := SetPrev(dirties, oldest, zero);
      }
    }

    /** The oldest node, which is on disk, leaves the cache. */
    method TrimOne()
      requires Sane([], multiset{}) && order != [] && order[0] in disk && oldest in dirties
      modifies this`dirties, this`order, this`oldest, this`dirtiesSize, this`childrenSize
      ensures Sane([], multiset{}) && Kept(old(Now()), Now()) && order == old(order)[1..]
      ensures old(order)[0] in old(dirties) && oldest == old(dirties)[old(order)[0]].flushNext
      ensures dirties == old(dirties) - {old(order)[0]}
      ensures dirtiesSize + childrenSize == old(dirtiesSize + childrenSize) -
        (HASH_LENGTH + old(dirties)[old(order)[0]].size + LinkBytes(old(dirties)[old(order)[0]]))
    {
      hide Good;
      hide Kept;
      ghost var s0, n0 := Now(), Bytes();
      Behead(u, s0, n0);
      var node := dirties[oldest];
      dirties := dirties - {oldest};
      oldest := node.flushNext;
      order := order[1..];
      dirtiesSize := dirtiesSize - (HASH_LENGTH + node.size);
      if node.children.Some? {
        childrenSize := childrenSize - (CHILDREN_SIZE + |node.children.value| * LINK_SIZE);
      }
      assert Bytes() == Without(n0, node);
      assert Now() == s0.(d := s0.d - {s0.order[0]}, order := order, oldest := oldest);
    }

    /**
     * Cap: the oldest nodes move to disk until the reported size is within the limit. The disk
     * accepts all batch writes or quota more; whichever write fails, nothing is lost, and none can if
     * it accepts more than there are nodes on the list.
     */
    method Cap(limit: int, quota: Option<nat>) returns (ok: bool)
      requires Sane([], multiset{})
      modifies this`dirties, this`disk, this`plain, this`order, this`oldest, this`dirtiesSize, this`childrenSize
      ensures Sane([], multiset{}) && Kept(old(Now()), Now())
      ensures exists k :: 0 <= k <= |old(order)| && order == old(order)[k..] && (!ok ==> k == 0)
      ensures !ok ==> quota.Some? && quota.value <= |old(order)|
      ensures ok ==> order == [] || Report(zero, dirties, dirtiesSize + childrenSize) <= limit
    {
      hide Good;
      hide Kept;
      hide Sum;
      ghost var s0 := Now();
      var stop;
      ghost var k, size;
      ok, stop, k, size := CapWrite(limit, quota);
      if !ok {
        assert order == old(order)[0..];
        return;
      }
      ghost var s1 := Now();
      CapTrim(stop, k);
      KeptTrans(s0, s1, Now());
      assert order == old(order)[k..];
    }
  }

  /** A node with one recorded link, after its child. */
  ghost predicate OneLink(u: Universe<nat>, s: Cache<nat>) {
    && u.zero == 0 && s.d.Keys == {0, 1, 2} && s.order == [1, 2] && u.blob(1) == [] && u.blob(2) == []
    && s.d[0].children == Some(map[]) && s.d[1].kids == [] && s.d[1].children == None
    && s.d[2].kids == [] && s.d[2].children == Some(map[1 := 1])
  }

  lemma OneLinkCounts(u: Universe<nat>, s: Cache<nat>)
    requires OneLink(u, s)
    ensures forall c :: Cnt(s.d[1], c) == 0 && (Cnt(s.d[2], c) > 0 ==> c == 1)
    ensures LinkBytes(s.d[1]) == 0 && LinkBytes(s.d[2]) == 82 && MetaBytes(0, s.d) == 0
  {
    assert |map[1 := 1]| == |{1}| == 1;
  }

  lemma SumTwo(f: nat -> int, a: nat, b: nat)
    ensures Sum(f, [a, b]) == f(a) + f(b)
  {
    SumConcat(f, [a], [b]);
    assert [a] + [b] == [a, b];
  }

  lemma OneLinkBytes(u: Universe<nat>, s: Cache<nat>, n: Sizes)
    requires OneLink(u, s) && Good(u, s, n, [], multiset{})
    ensures n.links == 82
  {
    hide Good;
    hide Sum;
    hide LinkBytes;
    hide MetaBytes;
    hide Distinct;
    OrderKeys(u, s, n);
    OneLinkCounts(u, s);
    SumTwo(MapBytesOf(s.d), 1, 2);
  }

  /** With only the meta-root left, nothing weighs anything. */
  lemma EmptyBytes(u: Universe<nat>, s: Cache<nat>, n: Sizes)
    requires Good(u, s, n, [], multiset{}) && s.d.Keys == {0} && s.d[0].children == Some(map[]) && u.zero == 0
    ensures n == Sizes(0, 0)
  {
    hide Good;
    hide Distinct;
    OrderKeys(u, s, n);
    WeighedAs(u, s, n);
    assert s.order == [];
  }

  /** Two nodes that refer to nothing. */
  ghost predicate TwoNodes(u: Universe<nat>, s: Cache<nat>) {
    && u.zero == 0 && s.d.Keys == {0, 1, 2} && s.order == [1, 2] && u.blob(1) == [] && u.blob(2) == []
    && u.rank(1) < u.rank(2)
    && s.d[0].children == Some(map[]) && s.d[1].kids == [] && s.d[1].children == None
    && s.d[2].kids == [] && s.d[2].children == None
  }

  function TwoUniverse(): (u: Universe<nat>) {
    Universe(0, (h: nat) => [], (h: nat) => [], (h: nat) => h)
  }

  lemma TwoFacts()
    ensures var u := TwoUniverse();
      && u.Valid() && u.zero == 0 && Closed(u, map[], {})
      && u.blob(1) == [] && u.blob(2) == [] && u.kids(1) == [] && u.kids(2) == [] && u.rank(1) < u.rank(2)
  {}

  method TwoInserted() returns (db: Database<nat>)
    ensures fresh(db) && db.lost == 0 && db.strayed == 0 && TwoNodes(db.u, db.Now()) && db.Sane([], multiset{})
  {
    hide Good;
    hide Inserted;
    hide Wraps;
    hide TwoUniverse;
    hide Closed;
    TwoFacts();
    db := new Database<nat>(0, map[], TwoUniverse(), {});
    ghost var d0 := db.dirties;
    db.Insert(1, [], []);
    ghost var d1 := db.dirties;
    InsertedEntry(d0, d1, 1, [], []);
    db.Insert(2, [], []);
    InsertedEntry(d1, db.dirties, 2, [], []);
    NothingWraps();
  }

  lemma InsertedEntry<K(!new)>(d: Dirties<K>, d': Dirties<K>, h: K, blob: seq<byte>, kids: seq<K>)
    requires Inserted(d, d', h, blob, kids)
    ensures d'.Keys == d.Keys + {h} && d'[h].kids == kids && d'[h].children == None
    ensures forall k :: k in d ==> d'[k].kids == d[k].kids && d'[k].children == d[k].children
  {
    hide Cut16;
  }

  lemma InsertedParents<K(!new)>(d: Dirties<K>, d': Dirties<K>, h: K, blob: seq<byte>, kids: seq<K>, k: K)
    requires Inserted(d, d', h, blob, kids) && k in d
    ensures k in d' && d'[k].parents == d[k].parents + multiset(kids)[k]
  {
    hide Cut16;
  }

  lemma NothingWraps()
    ensures !Wraps([])
  {}

  method OneLinked() returns (db: Database<nat>)
    ensures fresh(db) && db.lost == 0 && db.strayed == 0 && OneLink(db.u, db.Now()) && db.Sane([], multiset{})
  {
    hide Good;
    db := TwoInserted();
    MayLinkTwo(db.u, db.Now());
    db.Reference(1, 2);
  }

  lemma MayLinkTwo(u: Universe<nat>, s: Cache<nat>)
    requires TwoNodes(u, s)
    ensures MayLink(u, s, 1, 2)
  {
    assert s.order[1] == 2 && s.order[..1] == [1];
  }

  /** From 2 one gets to 2 and 1. */
  lemma OneLinkReach(u: Universe<nat>, s: Cache<nat>)
    requires OneLink(u, s)
    ensures forall x :: Reaches(s.d, 2, x) <==> x == 1 || x == 2
  {
    OneLinkCounts(u, s);
    ReachSelf(s.d, 2);
    ReachSelf(s.d, 1);
    ReachStep(s.d, 2, 1, 1);
    forall x | Reaches(s.d, 2, x)
      ensures x == 1 || x == 2
    {
      var p :| Path(s.d, p) && p[0] == 2 && p[|p| - 1] == x;
      OneLinkPath(u, s, p);
    }
  }

  lemma {:induction false} OneLinkPath(u: Universe<nat>, s: Cache<nat>, p: seq<nat>)
    requires OneLink(u, s) && Path(s.d, p) && (p[0] == 1 || p[0] == 2)
    ensures p[|p| - 1] == 1 || p[|p| - 1] == 2
    decreases |p|
  {
    OneLinkCounts(u, s);
    if |p| > 1 {
      OneLinkPath(u, s, p[1..]);
    }
  }

  /**
   * The smallest case in which a commit puts the counters wrong: a node with one recorded link is
   * committed and leaves the cache with its child. Nothing is cached any more, but the counter of the
   * link maps still shows the 82 bytes of that map, and the other one is as much too low.
   */
  method StrayExample() returns (db: Database<nat>)
    ensures fresh(db) && db.Sane([], multiset{}) && !db.Exact() && db.lost == 0
    ensures db.dirties.Keys == {0} && db.childrenSize == 82 && db.dirtiesSize == -82
  {
    hide Good;
    hide Kept;
    hide TrueWeight;
    hide AllSmall;
    hide CutBytes;
    hide Sum;
    db := OneLinked();
    ghost var n0 := db.Bytes();
    OneLinkBytes(db.u, db.Now(), n0);
    CommitBoth(db);
    EmptyBytes(db.u, db.Now(), db.Bytes());
    db.ExactIff();
  }

  method CommitBoth(db: Database<nat>)
    requires db.Sane([], multiset{}) && OneLink(db.u, db.Now())
    modifies db`dirties, db`disk, db`plain, db`order, db`oldest, db`newest, db`dirtiesSize, db`strayed
    ensures db.Sane([], multiset{}) && db.dirties.Keys == {0} && db.dirties[0].children == Some(map[])
  {
    hide Good;
    hide Kept;
    hide TrueWeight;
    hide AllSmall;
    hide Reaches;
    hide Sum;
    hide GoneMaps;
    ghost var s0 := db.Now();
    OneLinkReach(db.u, s0);
    var ok, left;
    ghost var gone;
    ok, left, gone := db.Commit(2, None);
    assert gone == {1, 2};
    KeptMaps(s0, db.Now());
  }

  // ---- the two cuts to 16 bits ----

  function BigUniverse(n: nat): (u: Universe<nat>) {
    Universe(0, (h: nat) => seq(n, _ => 0), (h: nat) => [], (h: nat) => h)
  }

  lemma BigFacts(n: nat)
    ensures var u := BigUniverse(n); u.Valid() && Closed(u, map[], {}) && |u.blob(1)| == n && u.kids(1) == []
  {}

  /** One blob in a new cache: the counter holds its size and that of its hash modulo 2^16. */
  method InsertOne(n: nat) returns (db: Database<nat>)
    ensures fresh(db) && db.Sane([], multiset{}) && db.dirties.Keys == {0, 1} && |db.dirties[1].blob| == n
    ensures db.dirtiesSize == (HASH_LENGTH + n) % 0x1_0000 && db.childrenSize == 0
    ensures TrueWeight(db.zero, db.dirties, db.order) == Sizes(HASH_LENGTH + n, 0)
    ensures db.strayed == 0 && db.lost == if 0x1_0000 - HASH_LENGTH <= n % 0x1_0000 then 0x1_0000 else 0
    ensures AllSmall(db.dirties, db.order) <==> n < 0x1_0000
    ensures db.Exact() <==> n < 0x1_0000 - HASH_LENGTH
  {
    hide Good;
    hide Inserted;
    hide TrueWeight;
    hide AllSmall;
    hide CutBytes;
    hide Sum;
    ghost var d0;
    db, d0 := OneBlob(n);
    BigWeight(db.u, db.Now(), db.Bytes(), d0, seq(n, _ => 0));
    db.ExactIff();
  }

  method OneBlob(n: nat) returns (db: Database<nat>, ghost d0: Dirties<nat>)
    ensures fresh(db) && db.Sane([], multiset{}) && db.zero == 0 && db.order == [1]
    ensures d0.Keys == {0} && d0[0].children == Some(map[]) && Inserted(d0, db.dirties, 1, seq(n, _ => 0), [])
    ensures db.strayed == 0 && db.lost == if Wraps(seq(n, _ => 0)) then 0x1_0000 else 0
  {
    hide Good;
    hide Inserted;
    hide BigUniverse;
    hide Closed;
    hide Wraps;
    BigFacts(n);
    BigBlob(n);
    db := new Database<nat>(0, map[], BigUniverse(n), {});
    d0 := db.dirties;
    var blob := seq(n, _ => 0);
    db.InsertBlob(1, blob);
  }

  lemma BigBlob(n: nat)
    ensures BigUniverse(n).blob(1) == seq(n, _ => 0) && BigUniverse(n).zero == 0
  {}

  lemma BigWeight(u: Universe<nat>, s: Cache<nat>, n: Sizes, d0: Dirties<nat>, blob: seq<byte>)
    requires Good(u, s, n, [], multiset{}) && u.zero == 0 && Inserted(d0, s.d, 1, blob, []) && s.order == [1]
    requires d0.Keys == {0} && d0[0].children == Some(map[])
    ensures s.d.Keys == {0, 1} && s.d[1].blob == blob && n == Sizes(HASH_LENGTH + Cut16(|blob|), 0)
    ensures TrueWeight(0, s.d, s.order) == Sizes(HASH_LENGTH + |blob|, 0)
    ensures AllSmall(s.d, s.order) <==> |blob| < 0x1_0000
  {
    hide Good;
    hide Distinct;
    GenuineSizes(u, s, n);
    OrderKeys(u, s, n);
    SumOne(NodeBytes(s.d), 1);
    SumOne(BlobBytes(s.d), 1);
    SumOne(MapBytesOf(s.d), 1);
    hide Sum;
  }

  lemma SumOne(f: nat -> int, a: nat)
    ensures Sum(f, [a]) == f(a)
  {
    assert [a][1..] == [];
  }

  /** The first cut: 65536 bytes are recorded as none, until the node leaves. */
  method CutExample() returns (db: Database<nat>)
    ensures fresh(db) && db.Sane([], multiset{}) && !db.Exact() && db.lost == 0 && db.strayed == 0
    ensures db.dirtiesSize == 32 && TrueWeight(db.zero, db.dirties, db.order).nodes == 65568
  {
    hide Good;
    hide TrueWeight;
    hide AllSmall;
    db := InsertOne(65536);
  }

  /** The second cut: the sum with the hash length wraps around, and 65536 bytes are lost for good. */
  method WrapExample() returns (db: Database<nat>)
    ensures fresh(db) && db.Sane([], multiset{}) && !db.Exact() && db.lost == 65536 && db.strayed == 0
    ensures AllSmall(db.dirties, db.order)
    ensures db.dirtiesSize == 31 && TrueWeight(db.zero, db.dirties, db.order).nodes == 65567
  {
    hide Good;
    hide TrueWeight;
    hide AllSmall;
    db := InsertOne(65535);
  }
}
