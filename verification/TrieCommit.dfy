/**
 * Committing a trie into the write cache (hash and store in proton/trie/hasher.go, insert and
 * Reference in proton/trie/database.go): the hasher's writes are insertions into the cache, made
 * children first, its leaf callback links a leaf's node to what the leaf refers to, and the trie that
 * was committed and referenced can be read back from the cache, with all it links to.
 */
module TrieCommit {
  import opened Bytes
  import opened Rlp
  import opened TrieEncoding
  import opened TrieTree
  import opened TrieNode
  import opened TrieLazy
  import opened TrieHasher
  import opened TrieBacked
  import opened TrieStore
  import TrieRun
  import TrieDatabase
  import Gc = TrieGc
  import Held = TrieHeld

  /** The cache and the disk as the hasher sees them. */
  ghost function View(gc: Gc.Database<Hash>): (db: Db)
    reads gc
  {
    ViewOf(gc.u, gc.Now())
  }

  // ---- children before parents ----

  /** All that a collapsed node refers to is in the database once everything below it is. */
  lemma {:induction false} GatherHeld(w: World, db: Db, t: Tree)
    requires Canonical(t) && Below(w, db, t)
    ensures forall h :: h in Gather(Collapse(w, t)) ==> h in db
    decreases t, 0
  {
    hide Enc;
    match t
    case Ext(_, c) =>
      if c.Leaf? {
        assert RefRaw(w, c) == RVal(c.v);
      } else {
        GatherKid(w, db, c);
      }
    case Branch(subs) => GatherKids(w, db, subs, 0);
    case _ =>
  }

  lemma {:induction false} GatherKid(w: World, db: Db, c: Tree)
    requires Canonical(c) && Kid(w, db, c)
    ensures forall h :: h in Gather(RefRaw(w, c)) ==> h in db
    decreases c, 1
  {
    hide Enc;
    if !Large(w, c) {
      GatherHeld(w, db, c);
    }
  }

  lemma {:induction false} GatherKids(w: World, db: Db, subs: seq<Tree>, i: nat)
    requires |subs| == 17 && i <= 16 && forall j :: 0 <= j < 16 ==> Canonical(subs[j]) && Kid(w, db, subs[j])
    ensures forall h :: h in GatherAll(RefRaws(w, subs), i) ==> h in db
    decreases subs, 2, 16 - i
  {
    hide Kid;
    hide Canonical;
    hide RefRaw;
    if i < 16 {
      GatherKid(w, db, subs[i]);
      GatherKids(w, db, subs, i + 1);
    }
  }

  // ---- one insertion ----

  lemma ViewAt(u: Universe, s: Cache, h: Hash)
    ensures h in ViewOf(u, s) <==> h != u.zero && (h in s.d || h in s.disk)
    ensures h in ViewOf(u, s) ==> ViewOf(u, s)[h] == if h in s.d then s.d[h].blob else s.disk[h]
  {}

  lemma InsertedBlobs(d: TrieDatabase.Dirties<Hash>, d': TrieDatabase.Dirties<Hash>, h: Hash, enc: seq<byte>,
                      kids: seq<Hash>)
    requires Gc.Inserted(d, d', h, enc, kids)
    ensures d'.Keys == d.Keys + {h} && d'[h].blob == enc
    ensures forall k :: k in d ==> k in d' && d'[k].blob == d[k].blob
  {}

  /** An insertion is the hasher's write. */
  lemma ViewInserted(w: World, u: Universe, s: Cache, s': Cache, h: Hash, enc: seq<byte>, kids: seq<Hash>)
    requires w.Valid() && Sound(w, ViewOf(u, s)) && enc in w.D && w.H(enc) == h && h != u.zero && h !in s.d
    requires Gc.Inserted(s.d, s'.d, h, enc, kids) && s'.disk == s.disk
    ensures ViewOf(u, s') == if h in ViewOf(u, s) then ViewOf(u, s) else ViewOf(u, s)[h := enc]
  {
    hide Gc.Inserted;
    hide ViewOf;
    InsertedBlobs(s.d, s'.d, h, enc, kids);
    var v, v' := ViewOf(u, s), ViewOf(u, s');
    var r := if h in v then v else v[h := enc];
    forall k
      ensures (k in v' <==> k in r) && (k in v' ==> v'[k] == r[k])
    {
      ViewAt(u, s, k);
      ViewAt(u, s', k);
    }
    assert v'.Keys == r.Keys;
  }

  /** What has just been gathered may be inserted. */
  lemma GatheredReady(w: World, u: Universe, s: Cache, t: Tree)
    requires Canonical(t) && Below(w, ViewOf(u, s), t)
    ensures forall c :: c in Gather(Collapse(w, t)) ==> c in s.d || c in s.disk
  {
    hide ViewOf;
    hide Gather;
    GatherHeld(w, ViewOf(u, s), t);
    forall c | c in Gather(Collapse(w, t))
      ensures c in s.d || c in s.disk
    {
      ViewAt(u, s, c);
    }
  }

  /** A cache in order, of which the zero hash names the meta-root. */
  ghost predicate Ready(gc: Gc.Database<Hash>)
    reads gc
  {
    gc.Sane([], multiset{}) && gc.u.zero == ZeroHash()
  }

  /** A node that stands for a tree, whose hashes are known to stand for what they do. */
  ghost predicate Fits(w: World, u: Universe, db: Db, n: Node, t: Tree, root: bool) {
    && Stands(w, db, n, t, root) && Backed(w, db, n, t, root)
    && Describes(w, u, t) && (Inner(t) && (root || Large(w, t)) ==> DescribesNode(w, u, t))
  }

  lemma FitsGrown(w: World, u: Universe, db: Db, db': Db, n: Node, t: Tree, root: bool)
    requires Fits(w, u, db, n, t, root) && Sound(w, db') && Grown(db, db')
    ensures Fits(w, u, db', n, t, root)
  {
    hide Backed;
    hide Rep;
    hide Sound;
    hide Grown;
    BackedGrown(w, db, db', n, t, root);
  }

  // ---- what leaves refer to ----

  /** What the leaf callback refers to from a node: the value of a short node is shown to it. */
  function LeafRefs(refs: seq<byte> -> seq<Hash>, t: Tree): (hs: seq<Hash>) {
    match t
    case Ext(_, Leaf(v)) => refs(v)
    case _ => []
  }

  /** The values in a collapsed node that are shown to the callback; there are none in a full node of a trie. */
  function RawRefs(refs: seq<byte> -> seq<Hash>, raw: Raw): (hs: seq<Hash>) {
    match raw
    case RShort(_, RVal(v)) => refs(v)
    case RFull(cs) => ValueRefs(refs, cs, 0)
    case _ => []
  }

  function ValueRefs(refs: seq<byte> -> seq<Hash>, cs: seq<Raw>, i: nat): (hs: seq<Hash>)
    decreases 16 - i
  {
    if i >= 16 || i >= |cs| then [] else (if cs[i].RVal? then refs(cs[i].v) else []) + ValueRefs(refs, cs, i + 1)
  }

  lemma RawRefsLeaf(w: World, refs: seq<byte> -> seq<Hash>, t: Tree)
    requires Canonical(t)
    ensures RawRefs(refs, Collapse(w, t)) == LeafRefs(refs, t)
  {
    hide Enc;
    match t
    case Ext(_, c) =>
      if c.Leaf? {
        assert RefRaw(w, c) == RVal(c.v);
      } else {
        assert !RefRaw(w, c).RVal?;
      }
    case Branch(subs) => NoValueRefs(w, refs, subs, 0);
    case _ =>
  }

  lemma {:induction false} NoValueRefs(w: World, refs: seq<byte> -> seq<Hash>, subs: seq<Tree>, i: nat)
    requires |subs| == 17 && forall j :: 0 <= j < 16 ==> Canonical(subs[j])
    ensures ValueRefs(refs, RefRaws(w, subs), i) == []
    decreases 16 - i
  {
    hide Enc;
    if i < 16 {
      assert !RefRaw(w, subs[i]).RVal?;
      NoValueRefs(w, refs, subs, i + 1);
    }
  }

  /** A node's embedded children and what its leaf refers to. */
  ghost function Wants(u: Universe, links: Hash -> seq<Hash>): (f: Hash -> seq<Hash>) {
    h => u.kids(h) + links(h)
  }

  /**
   * The node's leaf refers to entries that are there and lie below it; if the node is cached already,
   * they are stored or were listed before it.
   */
  ghost predicate TiedNode(w: World, u: Universe, refs: seq<byte> -> seq<Hash>, links: Hash -> seq<Hash>, s: Cache,
                           t: Tree)
  {
    var h := NodeHash(w, t);
    && links(h) == LeafRefs(refs, t)
    && forall c :: c in links(h) ==> MayRefer(u, s, h, c) && (c in s.d || c in s.disk)
  }

  /** So it is for all entries; without a leaf callback there is nothing to ask for. */
  ghost predicate Tied(w: World, u: Universe, refs: seq<byte> -> seq<Hash>, links: Hash -> seq<Hash>, s: Cache, t: Tree,
                       root: bool) {
    forall x :: SubOf(x, t) && Inner(x) && (Large(w, x) || (root && x == t)) ==> TiedNode(w, u, refs, links, s, x)
  }

  /** What may be linked to without upsetting the flush order. */
  ghost predicate Before(s: Cache, h: Hash, c: Hash) {
    c in s.disk || exists i :: 0 <= i < |s.order| && s.order[i] == h && c in s.order[..i]
  }

  /** A reference that may be made from a node, once it is cached. */
  ghost predicate MayRefer(u: Universe, s: Cache, h: Hash, c: Hash) {
    c != u.zero && u.rank(c) < u.rank(h) && (h in s.d && c in s.d ==> Before(s, h, c))
  }

  /** Entries were only added, at the end of the flush list, and what was firm is firm. */
  ghost predicate Onward(u: Universe, links: Hash -> seq<Hash>, s: Cache, s': Cache) {
    && Held.FirmStays(Wants(u, links), u.zero, s, s')
    && s'.disk == s.disk && s.order <= s'.order
    && (forall h :: h in s.d <==> h == u.zero || h in s.order)
    && (forall h :: h in s'.d <==> h == u.zero || h in s'.order)
  }

  lemma OnwardTrans(u: Universe, links: Hash -> seq<Hash>, a: Cache, b: Cache, c: Cache)
    requires Onward(u, links, a, b) && Onward(u, links, b, c)
    ensures Onward(u, links, a, c)
  {
    hide Wants;
    hide Held.FirmStays;
    Held.FirmStaysTrans(Wants(u, links), u.zero, a, b, c);
  }

  lemma OnwardSelf(u: Universe, links: Hash -> seq<Hash>, s: Cache, size: TrieDatabase.Sizes)
    requires Gc.Good(u, s, size, [], multiset{})
    ensures Onward(u, links, s, s)
  {
    hide Held.Firm;
    hide Gc.Good;
    hide TrieDatabase.Sum;
    hide TrieDatabase.Distinct;
    Gc.OrderKeys(u, s, size);
  }

  lemma OnwardNow(gc: Gc.Database<Hash>, links: Hash -> seq<Hash>)
    requires Ready(gc)
    ensures Onward(gc.u, links, gc.Now(), gc.Now())
  {
    hide Gc.Good;
    hide Onward;
    OnwardSelf(gc.u, links, gc.Now(), gc.Bytes());
  }

  lemma MayReferOnward(u: Universe, links: Hash -> seq<Hash>, s: Cache, s': Cache, h: Hash, c: Hash)
    requires Onward(u, links, s, s') && MayRefer(u, s, h, c) && (c in s.d || c in s.disk) && h != u.zero
    ensures MayRefer(u, s', h, c) && (c in s'.d || c in s'.disk)
  {
    hide Held.FirmStays;
    if h in s'.d && c !in s.disk {
      if h in s.d {
        var i :| 0 <= i < |s.order| && s.order[i] == h && c in s.order[..i];
        assert s'.order[i] == h && s'.order[..i] == s.order[..i];
      } else {
        var i :| 0 <= i < |s'.order| && s'.order[i] == h;
        assert i >= |s.order|;
        var j :| 0 <= j < |s.order| && s.order[j] == c;
        assert s'.order[..i][j] == c;
      }
    }
  }

  lemma TiedOnward(w: World, u: Universe, refs: seq<byte> -> seq<Hash>, links: Hash -> seq<Hash>, s: Cache, s': Cache,
                   t: Tree, root: bool)
    requires w.Valid() && Covers(w, t) && Canonical(t) && u.zero == ZeroHash()
    requires Tied(w, u, refs, links, s, t, root) && Onward(u, links, s, s')
    ensures Tied(w, u, refs, links, s', t, root)
  {
    hide SubOf;
    hide Canonical;
    hide Covers;
    hide LeafRefs;
    hide Large;
    hide Onward;
    hide MayRefer;
    forall x | SubOf(x, t) && Inner(x) && (Large(w, x) || (root && x == t))
      ensures TiedNode(w, u, refs, links, s', x)
    {
      assert TiedNode(w, u, refs, links, s, x);
      SubCovered(w, x, t);
      TrieRun.NotEmptyRoot(w, x);
      forall c | c in links(NodeHash(w, x))
        ensures MayRefer(u, s', NodeHash(w, x), c) && (c in s'.d || c in s'.disk)
      {
        MayReferOnward(u, links, s, s', NodeHash(w, x), c);
      }
    }
  }

  lemma TiedSub(w: World, u: Universe, refs: seq<byte> -> seq<Hash>, links: Hash -> seq<Hash>, s: Cache, t: Tree,
                root: bool, c: Tree)
    requires Tied(w, u, refs, links, s, t, root) && SubOf(c, t)
    ensures Tied(w, u, refs, links, s, c, false)
  {
    hide TiedNode;
    hide Large;
    hide SubOf;
    forall x | SubOf(x, c) && Inner(x) && Large(w, x)
      ensures TiedNode(w, u, refs, links, s, x)
    {
      SubTrans(x, c, t);
    }
  }

  // ---- linking a leaf's node ----

  /** A node that has just been listed comes after all others. */
  lemma LastBefore(u: Universe, s: Cache, size: TrieDatabase.Sizes, s': Cache, h: Hash, c: Hash)
    requires Gc.Good(u, s, size, [], multiset{}) && s'.order == s.order + [h] && s'.disk == s.disk
    requires (c in s.d || c in s.disk) && c != u.zero
    ensures Before(s', h, c)
  {
    hide Gc.Good;
    hide TrieDatabase.Distinct;
    hide TrieDatabase.Sum;
    Gc.OrderKeys(u, s, size);
    var i := |s.order|;
    assert s'.order[i] == h && s'.order[..i] == s.order;
  }

  lemma LinkCounted(u: Universe, s: Cache, size: TrieDatabase.Sizes, h: Hash, c: Hash)
    requires Gc.Good(u, s, size, [], multiset{}) && h in s.d && h != u.zero && Gc.LinkedTo(s.d[h], c)
    ensures TrieDatabase.Cnt(s.d[h], c) > 0
  {
    hide Gc.Good;
    var _ := Gc.Listed(u, s, size, [], multiset{}, h);
  }

  lemma RaisedSame(d: TrieDatabase.Dirties<Hash>, h: Hash, c: Hash)
    requires c in d && h in d && c != h
    ensures var d' := TrieDatabase.Raised(d, c)[h := TrieDatabase.Linked(d[h], c)];
      && d'.Keys == d.Keys && (forall k :: k in d ==> d'[k].blob == d[k].blob && d'[k].kids == d[k].kids)
      && forall x :: TrieDatabase.Cnt(d'[h], x) >= TrieDatabase.Cnt(d[h], x)
  {
    TrieDatabase.LinkedCnt(d[h], c);
  }

  /** The leaf callback: the node is linked to each of the given entries that is cached. */
  method LinkRefs(gc: Gc.Database<Hash>, h: Hash, cs: seq<Hash>, ghost want: Hash -> seq<Hash>)
    requires Ready(gc) && h in gc.dirties && h != gc.zero && forall c :: c in cs ==> MayRefer(gc.u, gc.Now(), h, c)
    modifies gc`dirties, gc`childrenSize
    ensures Ready(gc) && gc.dirties.Keys == old(gc.dirties.Keys) && View(gc) == old(View(gc))
    ensures Held.FirmStays(want, gc.u.zero, old(gc.Now()), gc.Now())
    ensures gc.dirties[h].kids == old(gc.dirties[h].kids)
    ensures forall c :: c in cs && c in gc.dirties ==> TrieDatabase.Cnt(gc.dirties[h], c) > 0
  {
    hide Gc.Good;
    hide ViewOf;
    hide TrieDatabase.Cnt;
    hide TrieDatabase.Linked;
    hide TrieDatabase.Raised;
    hide Held.FirmStays;
    hide Before;
    ghost var s0 := gc.Now();
    FirmStaysSelf(want, gc.u.zero, s0);
    for j := 0 to |cs|
      invariant Ready(gc) && gc.dirties.Keys == s0.d.Keys && View(gc) == ViewOf(gc.u, s0)
      invariant gc.order == s0.order && gc.disk == s0.disk
      invariant Held.FirmStays(want, gc.u.zero, s0, gc.Now()) && gc.dirties[h].kids == s0.d[h].kids
      invariant forall c :: c in cs[..j] && c in gc.dirties ==> TrieDatabase.Cnt(gc.dirties[h], c) > 0
    {
      ghost var s1 := gc.Now();
      assert cs[j] in cs;
      BeforeSame(s0, s1, h, cs[j]);
      LinkOne(gc, h, cs[j], want);
      assert cs[..j + 1] == cs[..j] + [cs[j]];
      Held.FirmStaysTrans(want, gc.u.zero, s0, s1, gc.Now());
    }
    assert cs[..|cs|] == cs;
  }

  lemma FirmStaysSelf(want: Hash -> seq<Hash>, zero: Hash, s: Cache)
    ensures Held.FirmStays(want, zero, s, s)
  {
    hide Held.Firm;
  }

  lemma BeforeSame(s: Cache, s': Cache, h: Hash, c: Hash)
    requires s'.order == s.order && s'.disk == s.disk
    ensures Before(s', h, c) == Before(s, h, c)
  {}

  method LinkOne(gc: Gc.Database<Hash>, h: Hash, c: Hash, ghost want: Hash -> seq<Hash>)
    requires Ready(gc) && h in gc.dirties && h != gc.zero && c != gc.zero && gc.u.rank(c) < gc.u.rank(h)
    requires c in gc.dirties ==> Before(gc.Now(), h, c)
    modifies gc`dirties, gc`childrenSize
    ensures Ready(gc) && gc.dirties.Keys == old(gc.dirties.Keys) && View(gc) == old(View(gc))
    ensures Held.FirmStays(want, gc.u.zero, old(gc.Now()), gc.Now())
    ensures gc.dirties[h].kids == old(gc.dirties[h].kids)
    ensures c in gc.dirties ==> TrieDatabase.Cnt(gc.dirties[h], c) > 0
    ensures forall x :: TrieDatabase.Cnt(gc.dirties[h], x) >= old(TrieDatabase.Cnt(gc.dirties[h], x))
  {
    hide Gc.Good;
    hide ViewOf;
    hide TrieDatabase.Cnt;
    hide TrieDatabase.Linked;
    hide Held.Firm;
    ghost var s := gc.Now();
    if c in s.d && !Gc.LinkedTo(s.d[h], c) {
      BeforeMayLink(gc.u, s, gc.Bytes(), h, c);
    }
    gc.Reference(c, h);
    if c in s.d {
      if Gc.LinkedTo(s.d[h], c) {
        LinkCounted(gc.u, s, gc.Bytes(), h, c);
      } else {
        RaisedSame(s.d, h, c);
        SameView(gc.u, s, gc.Now());
        Held.FirmLinked(want, gc.u.zero, s, gc.Now(), c, h);
      }
    }
  }

  lemma BeforeMayLink(u: Universe, s: Cache, size: TrieDatabase.Sizes, h: Hash, c: Hash)
    requires Gc.Good(u, s, size, [], multiset{}) && h in s.d && h != u.zero && Before(s, h, c) && u.rank(c) < u.rank(h)
    requires !Gc.LinkedTo(s.d[h], c)
    ensures TrieDatabase.MayLink(u, s, c, h)
  {
    hide Gc.Good;
    var i := Gc.Listed(u, s, size, [], multiset{}, h);
  }

  lemma SameView(u: Universe, s: Cache, s': Cache)
    requires s'.d.Keys == s.d.Keys && s'.disk == s.disk && forall k :: k in s.d ==> s'.d[k].blob == s.d[k].blob
    ensures ViewOf(u, s') == ViewOf(u, s)
  {
    hide ViewOf;
    var v, v' := ViewOf(u, s), ViewOf(u, s');
    forall k
      ensures (k in v' <==> k in v) && (k in v' ==> v'[k] == v[k])
    {
      ViewAt(u, s, k);
      ViewAt(u, s', k);
    }
    assert v'.Keys == v.Keys;
  }

  /** A new node with its children, linked to what its leaf refers to, has all it wants. */
  lemma NewFirm(u: Universe, links: Hash -> seq<Hash>, s: Cache, s1: Cache, s2: Cache, h: Hash, enc: seq<byte>)
    requires h !in s.d && h != u.zero && Gc.Inserted(s.d, s1.d, h, enc, u.kids(h)) && s1.disk == s.disk == s2.disk
    requires Held.FirmStays(Wants(u, links), u.zero, s1, s2)
    requires s2.d.Keys == s1.d.Keys && s2.d[h].kids == s1.d[h].kids
    requires forall c :: c in links(h) ==> c in s.d || c in s.disk
    requires forall c :: c in links(h) && c in s2.d ==> TrieDatabase.Cnt(s2.d[h], c) > 0
    ensures Held.FirmStays(Wants(u, links), u.zero, s, s2)
  {
    hide Gc.Inserted;
    var want := Wants(u, links);
    Held.FirmInserted(want, u.zero, s, s1, h, enc, u.kids(h));
    Gc.InsertedEntry(s.d, s1.d, h, enc, u.kids(h));
    forall c | c in u.kids(h)
      ensures TrieDatabase.Cnt(s2.d[h], c) > 0
    {
      Gc.KidsCounted(s2.d[h], c);
    }
    hide TrieDatabase.Cnt;
    if h !in s.disk {
      assert Held.Firm(want, s2, h);
    }
    hide Held.Firm;
  }

  /** What the leaf of a node that is now cached refers to may be linked. */
  lemma MayReferAll(u: Universe, links: Hash -> seq<Hash>, s: Cache, size: TrieDatabase.Sizes, s': Cache, h: Hash)
    requires Gc.Good(u, s, size, [], multiset{}) && h != u.zero
    requires forall c :: c in links(h) ==> MayRefer(u, s, h, c) && (c in s.d || c in s.disk)
    requires if h in s.d then s' == s else s'.order == s.order + [h] && s'.disk == s.disk
    ensures forall c :: c in links(h) ==> MayRefer(u, s', h, c)
  {
    hide Gc.Good;
    hide Before;
    forall c | c in links(h)
      ensures MayRefer(u, s', h, c)
    {
      if h !in s.d {
        LastBefore(u, s, size, s', h, c);
      }
    }
  }

  /** An insertion with its links is a step onward. */
  lemma EntryOnward(u: Universe, links: Hash -> seq<Hash>, s: Cache, size: TrieDatabase.Sizes, s': Cache,
                    size': TrieDatabase.Sizes)
    requires Gc.Good(u, s, size, [], multiset{}) && Gc.Good(u, s', size', [], multiset{})
    requires Held.FirmStays(Wants(u, links), u.zero, s, s') && s'.disk == s.disk && s.order <= s'.order
    ensures Onward(u, links, s, s')
  {
    hide Gc.Good;
    hide Held.FirmStays;
    hide TrieDatabase.Sum;
    hide TrieDatabase.Distinct;
    Gc.OrderKeys(u, s, size);
    Gc.OrderKeys(u, s', size');
  }

  /** insert, and the calls of the leaf callback for the values in the node. */
  method EntryInto(w: World, gc: Gc.Database<Hash>, h: Hash, enc: seq<byte>, raw: Raw, refs: seq<byte> -> seq<Hash>,
                   ghost links: Hash -> seq<Hash>, ghost t: Tree)
    requires Ready(gc) && w.Valid() && Sound(w, View(gc)) && enc in w.D && w.H(enc) == h && h != gc.zero
    requires Canonical(t) && h == NodeHash(w, t) && raw == Collapse(w, t) && TiedNode(w, gc.u, refs, links, gc.Now(), t)
    requires gc.u.blob(h) == enc && gc.u.kids(h) == Gather(raw)
    requires forall c :: c in Gather(raw) ==> c in gc.dirties || c in gc.disk
    modifies gc
    ensures Ready(gc) && h in gc.dirties && Onward(gc.u, links, old(gc.Now()), gc.Now())
    ensures View(gc) == if h in old(View(gc)) then old(View(gc)) else old(View(gc))[h := enc]
  {
    hide Gc.Good;
    hide Gc.Inserted;
    hide Gc.Wraps;
    hide ViewOf;
    hide Gather;
    hide Collapse;
    hide Canonical;
    hide Sound;
    hide Wants;
    hide RawRefs;
    hide LeafRefs;
    hide Held.Firm;
    hide TrieDatabase.Cnt;
    ghost var s, size := gc.Now(), gc.Bytes();
    ViewAt(gc.u, s, h);
    RawRefsLeaf(w, refs, t);
    gc.Insert(h, enc, Gather(raw));
    ghost var s1 := gc.Now();
    MayReferAll(gc.u, links, s, size, s1, h);
    if h !in s.d {
      ViewInserted(w, gc.u, s, s1, h, enc, Gather(raw));
      InsertedBlobs(s.d, s1.d, h, enc, Gather(raw));
    }
    LinkRefs(gc, h, RawRefs(refs, raw), Wants(gc.u, links));
    if h !in s.d {
      NewFirm(gc.u, links, s, s1, gc.Now(), h, enc);
    }
    EntryOnward(gc.u, links, s, size, gc.Now(), gc.Bytes());
  }

  /** store, in commit mode: the entry, and the leaf callback. */
  method StoreInto(w: World, gc: Gc.Database<Hash>, raw: Raw, hash: Option<Hash>, force: bool,
                   refs: seq<byte> -> seq<Hash>, ghost links: Hash -> seq<Hash>, ghost t: Tree)
    returns (r: Raw)
    requires Ready(gc) && w.Valid() && Sound(w, View(gc))
    requires Inner(t) && Canonical(t) && Covers(w, t) && (hash.Some? ==> hash.value == NodeHash(w, t))
    requires raw.RHash? || (raw == Collapse(w, t) && Below(w, View(gc), t))
    requires force || Large(w, t) ==> DescribesNode(w, gc.u, t) && TiedNode(w, gc.u, refs, links, gc.Now(), t)
    modifies gc
    ensures Ready(gc) && (r, View(gc)) == Store(w, raw, hash, old(View(gc)), true, force)
    ensures force && !raw.RHash? ==> NodeHash(w, t) in gc.dirties
    ensures Onward(gc.u, links, old(gc.Now()), gc.Now())
  {
    hide Gc.Good;
    hide Sound;
    hide Covers;
    hide Below;
    hide Canonical;
    hide ItemOf;
    hide RawItem;
    hide ViewOf;
    hide Gather;
    hide Encode;
    hide Onward;
    hide TiedNode;
    OnwardSelf(gc.u, links, gc.Now(), gc.Bytes());
    if raw.RNil? || raw.RHash? {
      CollapseInner(w, t);
      return raw;
    }
    CollapseItem(w, t);
    CollapseInner(w, t);
    CoversEnc(w, t);
    hide Collapse;
    var enc := Encode(RawItem(raw));
    if |enc| < 32 && !force {
      return raw;
    }
    var h := if hash.Some? then hash.value else w.H(enc);
    GatheredReady(w, gc.u, gc.Now(), t);
    ViewAt(gc.u, gc.Now(), h);
    EntryInto(w, gc, h, enc, raw, refs, links, t);
    return RHash(h);
  }

  /** hash, in commit mode: what it returns and what it writes are those of the hasher on the view. */
  method HashInto(w: World, gc: Gc.Database<Hash>, n: Node, force: bool, refs: seq<byte> -> seq<Hash>,
                  ghost links: Hash -> seq<Hash>, ghost t: Tree)
    returns (raw: Raw, cached: Node)
    requires Ready(gc) && Fits(w, gc.u, View(gc), n, t, force) && Inner(t)
    requires Tied(w, gc.u, refs, links, gc.Now(), t, force)
    modifies gc
    ensures Ready(gc) && Hashed(raw, cached, View(gc)) == HashNode(w, n, old(View(gc)), true, force)
    ensures Onward(gc.u, links, old(gc.Now()), gc.Now())
    ensures force && (n.Short? || n.Full?) && n.flag.dirty ==> NodeHash(w, t) in gc.dirties
    decreases n, 3
  {
    hide Gc.Database.Sane;
    hide ViewOf;
    hide Stands;
    hide Backed;
    hide Describes;
    hide DescribesNode;
    hide HashChildren;
    hide Store;
    hide Below;
    hide Collapse;
    hide Covers;
    hide Canonical;
    hide Sound;
    hide Onward;
    hide Tied;
    hide TiedNode;
    var h := CachedHash(n);
    ghost var s0, db0 := gc.Now(), View(gc);
    OnwardNow(gc, links);
    if h.Some? && !IsDirty(n) {
      return RHash(h.value), HashN(h.value);
    }
    raw, cached := HashChildrenInto(w, gc, n, force, refs, links, t);
    ghost var s1 := gc.Now();
    KidsDone(w, n, t, db0, force, Hashed(raw, cached, View(gc)));
    TiedOnward(w, gc.u, refs, links, s0, s1, t, force);
    TiedRoot(w, gc.u, refs, links, s1, t, force);
    raw := StoreInto(w, gc, raw, h, force, refs, links, t);
    OnwardTrans(gc.u, links, s0, s1, gc.Now());
    cached := Remember(cached, raw, true);
  }

  lemma TiedRoot(w: World, u: Universe, refs: seq<byte> -> seq<Hash>, links: Hash -> seq<Hash>, s: Cache, t: Tree,
                 root: bool)
    requires Tied(w, u, refs, links, s, t, root) && Inner(t)
    ensures root || Large(w, t) ==> TiedNode(w, u, refs, links, s, t)
  {
    hide TiedNode;
    hide Large;
    assert SubOf(t, t);
  }

  /** Once the children are written, the node may be. */
  lemma KidsDone(w: World, n: Node, t: Tree, db: Db, root: bool, kids: Hashed)
    requires Stands(w, db, n, t, root) && Inner(t) && Backed(w, db, n, t, root) && kids == HashChildren(w, n, db, true)
    ensures w.Valid() && Sound(w, kids.db) && Canonical(t) && Covers(w, t)
    ensures kids.raw.RHash? || (kids.raw == Collapse(w, t) && Below(w, kids.db, t))
    ensures kids.raw.RHash? <==> n.HashN?
    ensures CachedHash(n).Some? ==> CachedHash(n).value == NodeHash(w, t)
  {
    hide Enc;
    hide Backed;
    hide BackedKids;
    hide Below;
    if n.Short? || n.Full? {
      ChildrenCorrect(w, n, t, db, true, root);
      BackedSplit(w, db, n, t, root);
      FlagOfRep(w, n, t, root);
      CollapseInner(w, t);
    }
  }

  method HashChildrenInto(w: World, gc: Gc.Database<Hash>, n: Node, ghost root: bool, refs: seq<byte> -> seq<Hash>,
                          ghost links: Hash -> seq<Hash>, ghost t: Tree)
    returns (raw: Raw, cached: Node)
    requires Ready(gc) && Fits(w, gc.u, View(gc), n, t, root) && Inner(t)
    requires Tied(w, gc.u, refs, links, gc.Now(), t, root)
    modifies gc
    ensures Ready(gc) && Hashed(raw, cached, View(gc)) == HashChildren(w, n, old(View(gc)), true)
    ensures Onward(gc.u, links, old(gc.Now()), gc.Now())
    decreases n, 2
  {
    hide Gc.Database.Sane;
    hide ViewOf;
    hide Fits;
    hide HashNode;
    hide HashKids;
    hide FitAll;
    hide Onward;
    hide Tied;
    OnwardNow(gc, links);
    match n
    case Short(k, val, flag) =>
      if val.Val? {
        return RShort(Compact(k), RVal(val.v)), n;
      }
      FitsShort(w, gc.u, View(gc), n, t, root);
      ChildSub(t);
      TiedSub(w, gc.u, refs, links, gc.Now(), t, root, t.sub);
      var r, c := HashInto(w, gc, val, false, refs, links, t.sub);
      return RShort(Compact(k), r), Short(k, c, flag);
    case Full(cs, flag) =>
      FitsFull(w, gc.u, View(gc), n, t, root);
      ChildSub(t);
      forall i | 0 <= i < |t.subs|
        ensures Tied(w, gc.u, refs, links, gc.Now(), t.subs[i], false)
      {
        TiedSub(w, gc.u, refs, links, gc.Now(), t, root, t.subs[i]);
      }
      var rs, kept := HashKidsInto(w, gc, cs, refs, links, t.subs);
      return RFull(rs), Full(kept, flag);
    case _ =>
      return RawLeaf(n), n;
  }

  lemma ChildSub(t: Tree)
    ensures t.Ext? ==> SubOf(t.sub, t)
    ensures t.Branch? ==> forall i :: 0 <= i < |t.subs| ==> SubOf(t.subs[i], t)
  {
    if t.Branch? {
      forall i | 0 <= i < |t.subs|
        ensures SubOf(t.subs[i], t)
      {
        assert SubOf(t.subs[i], t.subs[i]);
      }
    }
  }

  lemma FitsShort(w: World, u: Universe, db: Db, n: Node, t: Tree, root: bool)
    requires Fits(w, u, db, n, t, root) && n.Short? && !n.val.Val?
    ensures t.Ext? && Fits(w, u, db, n.val, t.sub, false) && Inner(t.sub)
  {
    hide Enc;
    StandsShort(w, db, n, t, root);
  }

  /** The children from a position on; only the value slot may hold a value. */
  ghost predicate FitAll(w: World, u: Universe, db: Db, cs: seq<Node>, subs: seq<Tree>, i: nat) {
    && |cs| == |subs| == 17
    && (forall j :: 0 <= j < 16 ==> Canonical(subs[j]))
    && (forall j :: i <= j < 17 ==> Fits(w, u, db, cs[j], subs[j], false))
  }

  lemma FitsFull(w: World, u: Universe, db: Db, n: Node, t: Tree, root: bool)
    requires Fits(w, u, db, n, t, root) && n.Full?
    ensures t.Branch? && FitAll(w, u, db, n.children, t.subs, 0)
  {
    hide Enc;
    StandsFull(w, db, n, t, root, 0);
    forall i | 0 <= i < 17
      ensures Fits(w, u, db, n.children[i], t.subs[i], false)
    {
      StandsFull(w, db, n, t, root, i);
    }
  }

  lemma FitRest(w: World, u: Universe, db: Db, db': Db, cs: seq<Node>, subs: seq<Tree>, i: nat)
    requires FitAll(w, u, db, cs, subs, i) && i < 17 && Sound(w, db') && Grown(db, db')
    ensures FitAll(w, u, db', cs, subs, i + 1)
  {
    hide Fits;
    hide Sound;
    hide Grown;
    hide Canonical;
    forall j | i + 1 <= j < 17
      ensures Fits(w, u, db', cs[j], subs[j], false)
    {
      FitsGrown(w, u, db, db', cs[j], subs[j], false);
    }
  }

  /** The loop over a full node's children. */
  method HashKidsInto(w: World, gc: Gc.Database<Hash>, cs: seq<Node>, refs: seq<byte> -> seq<Hash>,
                      ghost links: Hash -> seq<Hash>, ghost subs: seq<Tree>)
    returns (raws: seq<Raw>, cached: seq<Node>)
    requires Ready(gc) && FitAll(w, gc.u, View(gc), cs, subs, 0)
    requires forall i :: 0 <= i < |subs| ==> Tied(w, gc.u, refs, links, gc.Now(), subs[i], false)
    modifies gc
    ensures Ready(gc) && HashedKids(raws, cached, View(gc)) == HashKids(w, cs, 0, old(View(gc)), true)
    ensures Onward(gc.u, links, old(gc.Now()), gc.Now())
    decreases cs, 1
  {
    hide Gc.Database.Sane;
    hide Fits;
    hide ViewOf;
    hide HashNode;
    hide HashKids;
    hide Sound;
    hide Grown;
    hide Canonical;
    hide Onward;
    hide Tied;
    raws, cached := [], [];
    ghost var s0, db0 := gc.Now(), View(gc);
    OnwardNow(gc, links);
    for i := 0 to 17
      invariant Ready(gc) && FitAll(w, gc.u, View(gc), cs, subs, i) && |raws| == |cached| == i
      invariant Onward(gc.u, links, s0, gc.Now())
      invariant HashKids(w, cs, 0, db0, true) == Joined(raws, cached, HashKids(w, cs, i, View(gc), true))
    {
      ghost var s1, db := gc.Now(), View(gc);
      var r, c := KidInto(w, gc, cs, i, refs, links, subs, s0);
      OnwardTrans(gc.u, links, s0, s1, gc.Now());
      FitRest(w, gc.u, db, View(gc), cs, subs, i);
      JoinedStep(w, cs, i, db, raws, cached, Hashed(r, c, View(gc)));
      raws, cached := raws + [r], cached + [c];
    }
    JoinedEnd(w, cs, raws, cached, View(gc));
  }

  /** One child. */
  method KidInto(w: World, gc: Gc.Database<Hash>, cs: seq<Node>, i: nat, refs: seq<byte> -> seq<Hash>,
                 ghost links: Hash -> seq<Hash>, ghost subs: seq<Tree>, ghost s0: Cache)
    returns (r: Raw, c: Node)
    requires i < 17 && Ready(gc) && FitAll(w, gc.u, View(gc), cs, subs, i)
    requires Tied(w, gc.u, refs, links, s0, subs[i], false) && Onward(gc.u, links, s0, gc.Now())
    modifies gc
    ensures Ready(gc) && Hashed(r, c, View(gc)) == KidHashed(w, cs[i], i, old(View(gc)))
    ensures Onward(gc.u, links, old(gc.Now()), gc.Now())
    ensures Sound(w, View(gc)) && Grown(old(View(gc)), View(gc))
    decreases cs, 0
  {
    hide Gc.Database.Sane;
    hide ViewOf;
    hide HashNode;
    hide Canonical;
    hide Onward;
    hide Tied;
    ghost var db := View(gc);
    OnwardNow(gc, links);
    assert Fits(w, gc.u, db, cs[i], subs[i], false);
    if i < 16 && cs[i] != Nil {
      KidInner(w, db, cs[i], subs[i]);
      HashCorrect(w, cs[i], subs[i], db, true, false);
      TiedOnward(w, gc.u, refs, links, s0, gc.Now(), subs[i], false);
      hide Fits;
      r, c := HashInto(w, gc, cs[i], false, refs, links, subs[i]);
    } else {
      r, c := RawLeaf(cs[i]), cs[i];
    }
  }

  lemma KidInner(w: World, db: Db, n: Node, t: Tree)
    requires Stands(w, db, n, t, false) && Canonical(t) && n != Nil
    ensures Inner(t)
  {}

  ghost function KidHashed(w: World, c: Node, i: nat, db: Db): (r: Hashed) {
    if i < 16 && c != Nil then HashNode(w, c, db, true, false) else Hashed(RawLeaf(c), c, db)
  }

  ghost function Joined(raws: seq<Raw>, cached: seq<Node>, rest: HashedKids): (r: HashedKids) {
    HashedKids(raws + rest.raws, cached + rest.cached, rest.db)
  }

  lemma JoinedStep(w: World, cs: seq<Node>, i: nat, db: Db, raws: seq<Raw>, cached: seq<Node>, k: Hashed)
    requires i < |cs| && k == KidHashed(w, cs[i], i, db)
    ensures Joined(raws, cached, HashKids(w, cs, i, db, true)) ==
      Joined(raws + [k.raw], cached + [k.cached], HashKids(w, cs, i + 1, k.db, true))
  {
    hide HashNode;
    var rest := HashKids(w, cs, i + 1, k.db, true);
    assert HashKids(w, cs, i, db, true) == HashedKids([k.raw] + rest.raws, [k.cached] + rest.cached, rest.db);
    assert raws + ([k.raw] + rest.raws) == raws + [k.raw] + rest.raws;
    assert cached + ([k.cached] + rest.cached) == cached + [k.cached] + rest.cached;
  }

  lemma JoinedEnd(w: World, cs: seq<Node>, raws: seq<Raw>, cached: seq<Node>, db: Db)
    ensures Joined(raws, cached, HashKids(w, cs, |cs|, db, true)) == HashedKids(raws, cached, db)
  {}

  lemma AllRead(w: World, db: Db, t: Tree)
    requires w.Valid() && Sound(w, db) && Canonical(t) && Covers(w, t) && (t != Empty ==> Stored(w, db, t))
    ensures forall key :: ReadsRight(w, db, t, key)
  {
    hide Stored;
    hide Covers;
    TrieRun.OpenGood(w, db, t);
    forall key: TrieRun.Key
      ensures ReadsRight(w, db, t, key)
    {
      var st := TrieRun.Open(w, TrieRun.RootHash(w, t), db).value;
      TryGetBacked(db, st.root, KeybytesToHex(key), w, t, true);
      TryGetCorrect(db, st.root, KeybytesToHex(key), w, t, true);
    }
  }

  /** A root in memory is that of a tree with nodes, unless it is nil. */
  lemma RootInner(w: World, st: TrieRun.State, t: Tree)
    requires TrieRun.Good(w, st, t)
    ensures if st.root == Nil then t == Empty else Inner(t)
    ensures w.Valid() && Covers(w, t) && TrieRun.RootHash(w, t) != ZeroHash()
  {
    if t != Empty {
      TrieRun.NotEmptyRoot(w, t);
    }
  }

  /** Trie.Commit into the cache is the trie's commit on the view. */
  method CommitInto(w: World, gc: Gc.Database<Hash>, n: Node, refs: seq<byte> -> seq<Hash>,
                    ghost links: Hash -> seq<Hash>, ghost t: Tree)
    returns (hash: Hash, cached: Node)
    requires Ready(gc) && Canonical(t) && Fits(w, gc.u, View(gc), n, t, true)
    requires Tied(w, gc.u, refs, links, gc.Now(), t, true)
    modifies gc
    ensures Ready(gc) && Onward(gc.u, links, old(gc.Now()), gc.Now())
    ensures (hash, TrieRun.State(cached, View(gc))) == TrieRun.HashStep(w, TrieRun.State(n, old(View(gc))), true)
    ensures (n.Short? || n.Full?) && n.flag.dirty ==> hash in gc.dirties
  {
    hide Gc.Database.Sane;
    hide ViewOf;
    hide HashNode;
    hide Describes;
    hide DescribesNode;
    hide Backed;
    hide Stands;
    hide Onward;
    hide Tied;
    ghost var st := TrieRun.State(n, View(gc));
    RootInner(w, st, t);
    OnwardNow(gc, links);
    if n == Nil {
      return TrieRun.EmptyRoot(w), Nil;
    }
    TrieRun.HashGood(w, st, true, t);
    var raw;
    raw, cached := HashInto(w, gc, n, true, refs, links, t);
    hash := raw.h;
  }

  lemma Committed(w: World, st: TrieRun.State, t: Tree)
    requires TrieRun.Good(w, st, t)
    ensures var (hash, st') := TrieRun.HashStep(w, st, true);
      && hash == TrieRun.RootHash(w, t) && hash != ZeroHash() && TrieRun.Good(w, st', t)
      && forall key :: ReadsRight(w, st'.db, t, key)
  {
    hide TrieRun.HashStep;
    hide Backed;
    hide Stored;
    hide ReadsRight;
    hide Rep;
    hide Sound;
    hide Covers;
    TrieRun.HashGood(w, st, true, t);
    RootInner(w, st, t);
    AllRead(w, TrieRun.HashStep(w, st, true).1.db, t);
  }

  /**
   * Commit, then Reference from outside: every key can be read from the cache and the disk, and a
   * root that was dirty is held from now on.
   */
  method CommitAndReference(w: World, gc: Gc.Database<Hash>, n: Node, refs: seq<byte> -> seq<Hash>,
                            ghost links: Hash -> seq<Hash>, ghost t: Tree)
    returns (hash: Hash, cached: Node)
    requires Ready(gc) && Canonical(t) && Fits(w, gc.u, View(gc), n, t, true)
    requires Tied(w, gc.u, refs, links, gc.Now(), t, true)
    modifies gc
    ensures Ready(gc) && hash == TrieRun.RootHash(w, t) && TrieRun.Good(w, TrieRun.State(cached, View(gc)), t)
    ensures (hash, TrieRun.State(cached, View(gc))) == TrieRun.HashStep(w, TrieRun.State(n, old(View(gc))), true)
    ensures hash in gc.dirties ==> gc.zero in gc.dirties && TrieDatabase.Cnt(gc.dirties[gc.zero], hash) > 0
    ensures (n.Short? || n.Full?) && n.flag.dirty ==> hash in gc.dirties
    ensures Onward(gc.u, links, old(gc.Now()), gc.Now())
    ensures forall key :: ReadsRight(w, View(gc), t, key)
  {
    hide Gc.Good;
    hide ViewOf;
    hide TrieRun.HashStep;
    hide TrieRun.RootHash;
    hide Describes;
    hide DescribesNode;
    hide Backed;
    hide Stands;
    hide Canonical;
    hide ReadsRight;
    hide TrieDatabase.Linked;
    hide TrieDatabase.Raised;
    hide TrieDatabase.Cnt;
    hide Onward;
    hide Tied;
    ghost var s0 := gc.Now();
    Committed(w, TrieRun.State(n, View(gc)), t);
    hash, cached := CommitInto(w, gc, n, refs, links, t);
    ghost var s := gc.Now();
    ReferenceRoot(gc, hash, links);
    OnwardTrans(gc.u, links, s0, s, gc.Now());
  }

  method ReferenceRoot(gc: Gc.Database<Hash>, h: Hash, ghost links: Hash -> seq<Hash>)
    requires Ready(gc) && h != gc.zero
    modifies gc`dirties, gc`childrenSize
    ensures Ready(gc) && View(gc) == old(View(gc)) && Onward(gc.u, links, old(gc.Now()), gc.Now())
    ensures gc.dirties.Keys == old(gc.dirties.Keys) && gc.zero in gc.dirties
    ensures h in gc.dirties ==> TrieDatabase.Cnt(gc.dirties[gc.zero], h) > 0
  {
    hide Gc.Good;
    hide ViewOf;
    hide TrieDatabase.Linked;
    hide TrieDatabase.Cnt;
    hide Onward;
    ghost var s := gc.Now();
    Gc.MetaMap(gc.u, s, gc.Bytes());
    ghost var size := gc.Bytes();
    OnwardSelf(gc.u, links, s, size);
    gc.Reference(h, gc.zero);
    if h in s.d {
      RootLinked(gc.u, links, s, gc.Now(), h);
      EntryOnward(gc.u, links, s, size, gc.Now(), gc.Bytes());
    }
  }

  /** A reference from outside is counted, and changes nothing that can be read. */
  lemma RootLinked(u: Universe, links: Hash -> seq<Hash>, s: Cache, s': Cache, h: Hash)
    requires h in s.d && u.zero in s.d && h != u.zero && s'.disk == s.disk
    requires s'.d == TrieDatabase.Raised(s.d, h)[u.zero := TrieDatabase.Linked(s.d[u.zero], h)]
    ensures u.zero in s'.d && TrieDatabase.Cnt(s'.d[u.zero], h) > 0 && ViewOf(u, s') == ViewOf(u, s)
    ensures Held.FirmStays(Wants(u, links), u.zero, s, s')
  {
    hide ViewOf;
    hide Held.Firm;
    hide TrieDatabase.Cnt;
    hide TrieDatabase.Linked;
    RaisedSame(s.d, u.zero, h);
    SameView(u, s, s');
    Held.FirmLinked(Wants(u, links), u.zero, s, s', h, u.zero);
  }

  // ---- what happens to the cache afterwards ----

  /** All that hashes to its name, as far as it is there. */
  ghost predicate NamedRight(w: World, u: Universe, h: Hash) {
    u.blob(h) in w.D && w.H(u.blob(h)) == h
  }

  lemma SoundNames(w: World, u: Universe, s: Cache, size: TrieDatabase.Sizes)
    requires Gc.Good(u, s, size, [], multiset{})
    ensures Sound(w, ViewOf(u, s)) <==> forall h :: Gc.Readable(u.zero, s, h) ==> NamedRight(w, u, h)
  {
    hide Gc.Good;
    hide NamedRight;
    forall h | h in ViewOf(u, s)
      ensures ViewOf(u, s)[h] == u.blob(h)
    {
      ViewBlob(u, s, size, h);
    }
    forall h
      ensures h in ViewOf(u, s) <==> Gc.Readable(u.zero, s, h)
    {
      ViewAt(u, s, h);
    }
    hide ViewOf;
    hide Gc.Readable;
    assert forall h :: NamedRight(w, u, h) <==> u.blob(h) in w.D && w.H(u.blob(h)) == h by { NamedAll(w, u); }
  }

  lemma NamedAll(w: World, u: Universe)
    ensures forall h :: NamedRight(w, u, h) <==> u.blob(h) in w.D && w.H(u.blob(h)) == h
  {}

  /** A trie to which something that is held leads can be read, and so can any other entry. */
  lemma LinkedReads(w: World, u: Universe, s: Cache, size: TrieDatabase.Sizes, links: Hash -> seq<Hash>, a: Hash,
                    t: Tree, key: TrieRun.Key)
    requires Gc.Good(u, s, size, [], multiset{}) && Held.AllHeld(Wants(u, links), u.zero, s, a)
    requires Inner(t) && Canonical(t) && DescribesNode(w, u, t) && Describes(w, u, t)
    requires w.Valid() && Covers(w, t) && Sound(w, ViewOf(u, s)) && Held.Leads(Wants(u, links), a, NodeHash(w, t))
    ensures Stored(w, ViewOf(u, s), t) && ReadsRight(w, ViewOf(u, s), t, key)
  {
    hide Gc.Good;
    hide Held.Leads;
    hide Describes;
    hide DescribesNode;
    hide ReadsRight;
    hide Stored;
    hide Wants;
    var h := NodeHash(w, t);
    forall x | Held.Leads(u.kids, h, x)
      ensures Gc.Readable(u.zero, s, x)
    {
      LeadsOn(u, links, a, h, x);
    }
    Held.LeadsSelf(u.kids, h);
    HeldTrie(w, u, s, size, t);
    StoredReads(w, ViewOf(u, s), t, key);
  }

  lemma LeadsOn(u: Universe, links: Hash -> seq<Hash>, a: Hash, b: Hash, c: Hash)
    requires Held.Leads(Wants(u, links), a, b) && Held.Leads(u.kids, b, c)
    ensures Held.Leads(Wants(u, links), a, c)
  {
    hide Held.Leads;
    var here := iset h | Held.Leads(Wants(u, links), a, h);
    forall h, x | h in here && x in u.kids(h)
      ensures x in here
    {
      Held.LeadsStep(Wants(u, links), a, h, x);
    }
    Held.LeadsInside(u.kids, here, b);
  }

  /** What is inserted hashes to its name. */
  ghost predicate HonestOps(w: World, u: Universe, ops: seq<Held.Op<Hash>>) {
    forall op :: op in ops ==> Held.Honest(u, op) && forall h :: Held.Names(op, h) ==> NamedRight(w, u, h)
  }

  /**
   * A trie is committed into the cache and its root referenced. Whatever is then inserted, as a node or
   * as a blob, given up, capped, or written to a disk that may refuse writes, the trie and all it links
   * to stay there completely, and every key reads right. This takes that what the trie leads to, as
   * far as it was there before, had all it wants.
   */
  method CommitAndRun(w: World, gc: Gc.Database<Hash>, n: Node, refs: seq<byte> -> seq<Hash>,
                      ghost links: Hash -> seq<Hash>, ops: seq<Held.Op<Hash>>, ghost t: Tree)
    returns (hash: Hash)
    requires Ready(gc) && Canonical(t) && Fits(w, gc.u, View(gc), n, t, true) && (n.Short? || n.Full?) && n.flag.dirty
    requires Tied(w, gc.u, refs, links, gc.Now(), t, true) && HonestOps(w, gc.u, ops)
    requires Held.AllFirm(Wants(gc.u, links), gc.u.zero, gc.Now(), NodeHash(w, t))
    modifies gc
    ensures Ready(gc) && hash == NodeHash(w, t) && Sound(w, View(gc))
    ensures Held.Stands(Wants(gc.u, links), gc.zero, gc.Now(), hash)
    ensures Held.AllHeld(Wants(gc.u, links), gc.zero, gc.Now(), hash)
    ensures forall key :: ReadsRight(w, View(gc), t, key)
  {
    hide Gc.Good;
    hide ViewOf;
    hide ReadsRight;
    hide Backed;
    hide Describes;
    hide DescribesNode;
    hide TrieDatabase.Cnt;
    hide TrieRun.HashStep;
    hide Tied;
    hide Held.Leads;
    hide Held.Firm;
    hide Wants;
    hide Held.EveryFirm;
    hide HonestOps;
    hide Sound;
    hide Canonical;
    hide Covers;
    var cached;
    RootInner(w, TrieRun.State(n, View(gc)), t);
    hash, cached := CommitAndReference(w, gc, n, refs, links, t);
    ghost var s, size := gc.Now(), gc.Bytes();
    assert Held.Stands(Wants(gc.u, links), gc.zero, s, hash);
    hide Held.Stands;
    OpsHonest(w, gc.u, ops);
    Held.Run(gc, ops, hash, Wants(gc.u, links));
    OpsSound(w, gc.u, s, size, gc.Now(), gc.Bytes(), ops);
    Held.LeadsSelf(Wants(gc.u, links), hash);
    forall key: TrieRun.Key
      ensures ReadsRight(w, View(gc), t, key)
    {
      LinkedReads(w, gc.u, gc.Now(), gc.Bytes(), links, hash, t, key);
    }
  }

  lemma OpsHonest(w: World, u: Universe, ops: seq<Held.Op<Hash>>)
    requires HonestOps(w, u, ops)
    ensures forall op :: op in ops ==> Held.Honest(u, op)
  {}

  lemma OpsSound(w: World, u: Universe, s: Cache, size: TrieDatabase.Sizes, s': Cache, size': TrieDatabase.Sizes,
                 ops: seq<Held.Op<Hash>>)
    requires Gc.Good(u, s, size, [], multiset{}) && Gc.Good(u, s', size', [], multiset{}) && HonestOps(w, u, ops)
    requires Sound(w, ViewOf(u, s))
    requires forall h :: h in s'.d || h in s'.disk ==>
                           h in s.d || h in s.disk || exists op :: op in ops && Held.Names(op, h)
    ensures Sound(w, ViewOf(u, s'))
  {
    hide Gc.Good;
    hide ViewOf;
    hide Sound;
    hide NamedRight;
    SoundNames(w, u, s, size);
    SoundNames(w, u, s', size');
  }
}
