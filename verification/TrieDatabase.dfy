/**
 * The reference-counted write cache in front of the disk (proton/trie/database.go): dirty nodes,
 * their parent counters, the flush list threaded through them, and the two-phase move to disk.
 *
 * What a hash stands for is a parameter: a hash has one blob and, read as a trie node, one list of
 * embedded children, and no node is below itself. An entry is inserted as a node, with these
 * children, or as a blob, in which none are looked for. Counters are unbounded; a blob's recorded
 * size is cut to 16 bits.
 */
module TrieDatabase {
  import opened Bytes

  /** What the hashes stand for. The zero hash stands for nothing; it names the meta-root. */
  datatype Universe<!K(!new)> = Universe(zero: K, blob: K -> seq<byte>, kids: K -> seq<K>, rank: K -> nat) {

    /** Embedded children lie below their node, and the zero hash is nobody's child. */
    ghost predicate Valid() {
      forall h, c :: c in kids(h) ==> c != zero && rank(c) < rank(h)
    }
  }

  datatype CachedNode<K(==)> = CachedNode(
    blob: seq<byte>, kids: seq<K>, size: nat, parents: nat, children: Option<map<K, nat>>, flushPrev: K, flushNext: K)

  type Dirties<K(==)> = map<K, CachedNode<K>>

  // ---- sums along a list ----

  function Sum<K>(f: K -> int, s: seq<K>): (n: int) {
    if s == [] then 0 else f(s[0]) + Sum(f, s[1..])
  }

  lemma {:induction false} SumConcat<K>(f: K -> int, a: seq<K>, b: seq<K>)
    ensures Sum(f, a + b) == Sum(f, a) + Sum(f, b)
  {
    if a == [] {
      assert a + b == b;
    } else {
      SumConcat(f, a[1..], b);
      assert (a + b)[1..] == a[1..] + b;
    }
  }

  lemma {:induction false} SumSame<K>(f: K -> int, g: K -> int, s: seq<K>)
    requires forall x :: x in s ==> f(x) == g(x)
    ensures Sum(f, s) == Sum(g, s)
  {
    if s != [] {
      SumSame(f, g, s[1..]);
    }
  }

  /** Terms that are not negative and add up to nothing are all zero. */
  lemma {:induction false} SumZero<K>(f: K -> int, s: seq<K>)
    requires forall x :: x in s ==> f(x) >= 0
    ensures Sum(f, s) >= 0
    ensures Sum(f, s) == 0 <==> forall x :: x in s ==> f(x) == 0
  {
    if s != [] {
      SumZero(f, s[1..]);
      assert forall x :: x in s ==> x == s[0] || x in s[1..];
    }
  }

  ghost predicate Distinct<K>(s: seq<K>) {
    forall i, j :: 0 <= i < j < |s| ==> s[i] != s[j]
  }

  function Drop<K>(s: seq<K>, i: nat): (r: seq<K>)
    requires i < |s|
    ensures |r| == |s| - 1
    ensures forall j :: 0 <= j < |r| ==> r[j] == s[if j < i then j else j + 1]
  {
    s[..i] + s[i + 1..]
  }

  lemma SumDrop<K>(f: K -> int, s: seq<K>, i: nat)
    requires i < |s|
    ensures Sum(f, Drop(s, i)) == Sum(f, s) - f(s[i])
  {
    SumConcat(f, s[..i], s[i + 1..]);
    SumConcat(f, s[..i], s[i..]);
    assert s[..i] + s[i..] == s;
    assert s[i..][1..] == s[i + 1..];
  }

  lemma DropMembers<K>(s: seq<K>, i: nat)
    requires i < |s| && Distinct(s)
    ensures Distinct(Drop(s, i)) && s[i] !in Drop(s, i)
    ensures forall x :: x in Drop(s, i) <==> x in s && x != s[i]
  {
    var r := Drop(s, i);
    forall x | x in s && x != s[i]
      ensures x in r
    {
      var j :| 0 <= j < |s| && s[j] == x;
      assert r[if j < i then j else j - 1] == x;
    }
  }

  // ---- the flush list ----

  ghost function NextOf<K>(zero: K, order: seq<K>, i: nat): (k: K)
    requires i < |order|
  {
    if i + 1 < |order| then order[i + 1] else zero
  }

  ghost predicate Forward<K>(zero: K, d: Dirties<K>, order: seq<K>) {
    forall i :: 0 <= i < |order| ==> order[i] in d && d[order[i]].flushNext == NextOf(zero, order, i)
  }

  ghost predicate Backward<K>(d: Dirties<K>, order: seq<K>) {
    forall i :: 0 < i < |order| ==> order[i] in d && d[order[i]].flushPrev == order[i - 1]
  }

  /**
   * The links enumerate exactly the given nodes, oldest first. The back link of the first node is
   * left open: it may still name a node that is gone, as may the tail pointer of an empty list.
   */
  ghost predicate Chain<K>(zero: K, d: Dirties<K>, order: seq<K>, oldest: K, newest: K) {
    && zero in d && zero !in order && Distinct(order) && Forward(zero, d, order) && Backward(d, order)
    && oldest == (if order == [] then zero else order[0])
    && (order != [] ==> newest == order[|order| - 1])
  }

  /** Everything but the links. */
  predicate SameNode<K(==)>(a: CachedNode<K>, b: CachedNode<K>) {
    a.blob == b.blob && a.kids == b.kids && a.size == b.size && a.parents == b.parents && a.children == b.children
  }

  ghost predicate Relinked<K(!new)>(d: Dirties<K>, d': Dirties<K>, order: seq<K>, zero: K) {
    && d'.Keys == d.Keys
    && (forall k :: k in d ==> SameNode(d[k], d'[k]))
    && (forall k :: k in d && k !in order && k != zero ==> d'[k] == d[k])
  }

  function SetNext<K(==)>(d: Dirties<K>, k: K, next: K): (r: Dirties<K>)
    requires k in d
  {
    d[k := d[k].(flushNext := next)]
  }

  function SetPrev<K(==)>(d: Dirties<K>, k: K, prev: K): (r: Dirties<K>)
    requires k in d
  {
    d[k := d[k].(flushPrev := prev)]
  }

  /** Taking a node out of the flush list, as dereference and the cleaner both do. */
  function Unlink<K(==)>(zero: K, d: Dirties<K>, oldest: K, newest: K, h: K): (r: (Dirties<K>, K, K))
    requires h in d && d[h].flushNext in d && (h != oldest ==> d[h].flushPrev in d)
  {
    var (prev, next) := (d[h].flushPrev, d[h].flushNext);
    if h == oldest then (SetPrev(d, next, zero), next, newest)
    else if h == newest then (SetNext(d, prev, zero), oldest, prev)
    else (SetPrev(SetNext(d, prev, next), next, prev), oldest, newest)
  }

  lemma ForwardDrop<K(!new)>(zero: K, d: Dirties<K>, order: seq<K>, i: nat)
    requires Forward(zero, d, order) && Distinct(order) && i < |order|
    ensures i == 0 ==> Forward(zero, d, Drop(order, i))
    ensures i > 0 ==> Forward(zero, SetNext(d, order[i - 1], NextOf(zero, order, i)), Drop(order, i))
  {
    var r := Drop(order, i);
    if i > 0 {
      var d' := SetNext(d, order[i - 1], NextOf(zero, order, i));
      forall j | 0 <= j < |r|
        ensures r[j] in d' && d'[r[j]].flushNext == NextOf(zero, r, j)
      {
        var o := if j < i then j else j + 1;
        assert r[j] == order[o];
        assert j != i - 1 ==> NextOf(zero, r, j) == NextOf(zero, order, o);
      }
    } else {
      assert forall j :: 0 <= j < |r| ==> r[j] == order[j + 1] && NextOf(zero, r, j) == NextOf(zero, order, j + 1);
    }
  }

  lemma BackwardDrop<K(!new)>(d: Dirties<K>, order: seq<K>, i: nat)
    requires Backward(d, order) && Distinct(order) && i < |order|
    ensures i == 0 || i == |order| - 1 ==> Backward(d, Drop(order, i))
    ensures 0 < i < |order| - 1 ==> Backward(SetPrev(d, order[i + 1], order[i - 1]), Drop(order, i))
  {
    var r := Drop(order, i);
    if 0 < i < |order| - 1 {
      var d' := SetPrev(d, order[i + 1], order[i - 1]);
      forall j | 0 < j < |r|
        ensures r[j] in d' && d'[r[j]].flushPrev == r[j - 1]
      {
        var o := if j < i then j else j + 1;
        assert r[j] == order[o];
        assert j != i ==> r[j - 1] == order[o - 1];
      }
    } else if i == 0 {
      assert forall j :: 0 < j < |r| ==> r[j] == order[j + 1] && r[j - 1] == order[j];
    }
  }

  lemma ForwardFrame<K(!new)>(zero: K, d: Dirties<K>, d': Dirties<K>, order: seq<K>)
    requires Forward(zero, d, order)
    requires forall x :: x in order ==> x in d && x in d' && d'[x].flushNext == d[x].flushNext
    ensures Forward(zero, d', order)
  {}

  lemma BackwardFrame<K(!new)>(d: Dirties<K>, d': Dirties<K>, order: seq<K>)
    requires Backward(d, order)
    requires forall x :: x in order && x in d ==> x in d' && d'[x].flushPrev == d[x].flushPrev
    ensures Backward(d', order)
  {}

  lemma UnlinkChain<K(!new)>(zero: K, d: Dirties<K>, order: seq<K>, oldest: K, newest: K, i: nat)
    requires Chain(zero, d, order, oldest, newest) && i < |order|
    ensures var h := order[i]; h in d && d[h].flushNext in d && (h != oldest ==> d[h].flushPrev in d)
    ensures
      var (d', o', n') := Unlink(zero, d, oldest, newest, order[i]);
      Chain(zero, d', Drop(order, i), o', n') && Relinked(d, d', order, zero)
  {
    hide Chain;
    hide NextOf;
    hide Relinked;
    hide SetNext;
    hide SetPrev;
    UnlinkEnds(zero, d, order, oldest, newest, i);
    if i == 0 {
      UnlinkFirst(zero, d, order, oldest, newest);
    } else if i == |order| - 1 {
      UnlinkLast(zero, d, order, oldest, newest);
    } else {
      UnlinkMiddle(zero, d, order, oldest, newest, i);
    }
  }

  lemma UnlinkFirst<K(!new)>(zero: K, d: Dirties<K>, order: seq<K>, oldest: K, newest: K)
    requires Chain(zero, d, order, oldest, newest) && |order| > 0
    ensures var next := NextOf(zero, order, 0);
      && next in d && Chain(zero, SetPrev(d, next, zero), Drop(order, 0), next, newest)
      && Relinked(d, SetPrev(d, next, zero), order, zero)
  {
    hide Forward;
    hide Backward;
    hide Distinct;
    UnlinkEnds(zero, d, order, oldest, newest, 0);
    DropMembers(order, 0);
    ForwardDrop(zero, d, order, 0);
    BackwardDrop(d, order, 0);
    var next := NextOf(zero, order, 0);
    var r := Drop(order, 0);
    var d' := SetPrev(d, next, zero);
    ForwardFrame(zero, d, d', r);
    HeadOpen(d, d', r);
  }

  lemma HeadOpen<K(!new)>(d: Dirties<K>, d': Dirties<K>, order: seq<K>)
    requires Backward(d, order) && Distinct(order) && d.Keys <= d'.Keys
    requires forall x :: x in order && x in d && x != order[0] ==> d'[x].flushPrev == d[x].flushPrev
    ensures Backward(d', order)
  {}

  lemma UnlinkLast<K(!new)>(zero: K, d: Dirties<K>, order: seq<K>, oldest: K, newest: K)
    requires Chain(zero, d, order, oldest, newest) && |order| > 1
    ensures var prev := order[|order| - 2];
      && prev in d && Chain(zero, SetNext(d, prev, zero), Drop(order, |order| - 1), oldest, prev)
      && Relinked(d, SetNext(d, prev, zero), order, zero)
  {
    hide Forward;
    hide Backward;
    hide Distinct;
    var i := |order| - 1;
    UnlinkEnds(zero, d, order, oldest, newest, i);
    DropMembers(order, i);
    ForwardDrop(zero, d, order, i);
    BackwardDrop(d, order, i);
    BackwardFrame(d, SetNext(d, order[i - 1], zero), Drop(order, i));
  }

  lemma UnlinkMiddle<K(!new)>(zero: K, d: Dirties<K>, order: seq<K>, oldest: K, newest: K, i: nat)
    requires Chain(zero, d, order, oldest, newest) && 0 < i < |order| - 1
    ensures var (prev, next) := (order[i - 1], NextOf(zero, order, i));
      && prev in d && next in d
      && Chain(zero, SetPrev(SetNext(d, prev, next), next, prev), Drop(order, i), oldest, newest)
      && Relinked(d, SetPrev(SetNext(d, prev, next), next, prev), order, zero)
  {
    hide Forward;
    hide Backward;
    hide Distinct;
    UnlinkEnds(zero, d, order, oldest, newest, i);
    DropMembers(order, i);
    ForwardDrop(zero, d, order, i);
    BackwardDrop(d, order, i);
    var (prev, next) := (order[i - 1], order[i + 1]);
    var r := Drop(order, i);
    var d' := SetPrev(SetNext(d, prev, next), next, prev);
    ForwardFrame(zero, SetNext(d, prev, next), d', r);
    BackwardFrame(SetPrev(d, next, prev), d', r);
  }

  /** The neighbours a node's links name. */
  lemma UnlinkEnds<K(!new)>(zero: K, d: Dirties<K>, order: seq<K>, oldest: K, newest: K, i: nat)
    requires Chain(zero, d, order, oldest, newest) && i < |order|
    ensures order[i] in d && d[order[i]].flushNext == NextOf(zero, order, i) && NextOf(zero, order, i) in d
    ensures order[i] == oldest <==> i == 0
    ensures order[i] == newest <==> i == |order| - 1
    ensures i > 0 ==> d[order[i]].flushPrev == order[i - 1] && order[i - 1] in d
  {}

  // ---- references ----

  /** How often a node refers to another: once per embedded occurrence, plus the recorded external links. */
  function Cnt<K(==)>(e: CachedNode<K>, c: K): (n: nat) {
    multiset(e.kids)[c] + match e.children { case None => 0 case Some(m) => if c in m then m[c] else 0 }
  }

  function CountOf<K(==)>(d: Dirties<K>, c: K): (f: K -> int) {
    h => if h in d then Cnt(d[h], c) else 0
  }

  /** The live references to a node: those of the meta-root and those of the listed nodes. */
  function Refs<K(==)>(zero: K, d: Dirties<K>, order: seq<K>, c: K): (n: int) {
    CountOf(d, c)(zero) + Sum(CountOf(d, c), order)
  }

  ghost predicate SameRefs<K(!new)>(zero: K, d: Dirties<K>, d': Dirties<K>, order: seq<K>) {
    forall h :: h == zero || h in order ==>
      h in d && h in d' && d'[h].kids == d[h].kids && d'[h].children == d[h].children
  }

  lemma RefsSame<K(!new)>(zero: K, d: Dirties<K>, d': Dirties<K>, order: seq<K>, c: K)
    requires SameRefs(zero, d, d', order)
    ensures Refs(zero, d', order, c) == Refs(zero, d, order, c)
  {
    SumSame(CountOf(d, c), CountOf(d', c), order);
  }

  lemma RefsDrop<K(!new)>(zero: K, d: Dirties<K>, order: seq<K>, i: nat, c: K)
    requires i < |order| && order[i] in d
    ensures Refs(zero, d, Drop(order, i), c) == Refs(zero, d, order, c) - Cnt(d[order[i]], c)
  {
    SumDrop(CountOf(d, c), order, i);
  }

  lemma Unreferenced<K(!new)>(zero: K, d: Dirties<K>, order: seq<K>, c: K)
    requires forall h :: h in order ==> h in d
    requires zero in d
    ensures Refs(zero, d, order, c) >= 0
    ensures Refs(zero, d, order, c) == 0 ==> Cnt(d[zero], c) == 0 && forall h :: h in order ==> Cnt(d[h], c) == 0
  {
    SumZero(CountOf(d, c), order);
    assert CountOf(d, c)(zero) >= 0;
    if Refs(zero, d, order, c) == 0 {
      forall h | h in order
        ensures Cnt(d[h], c) == 0
      {
        assert CountOf(d, c)(h) == 0;
      }
    }
  }

  // ---- the invariant ----

  /**
   * The cache: dirty nodes, disk contents, the nodes on the flush list and its end pointers, and the
   * hashes that came to the disk as blobs only.
   */
  datatype Cache<K(==)> = Cache(
    d: Dirties<K>, disk: map<K, seq<byte>>, order: seq<K>, oldest: K, newest: K, plain: set<K>)

  /** Conversion to a 16-bit number. */
  function Cut16(n: int): (r: nat) {
    n % 0x1_0000
  }

  /**
   * A listed node holds what its hash stands for, with or without the children in it, and its recorded
   * size; its external links are single and point down.
   */
  ghost predicate GenuineNode<K(!new)>(u: Universe<K>, h: K, e: CachedNode<K>) {
    && e.blob == u.blob(h) && (e.kids == u.kids(h) || e.kids == []) && e.size == Cut16(|e.blob|)
    && (e.children.Some? ==>
      forall c :: c in e.children.value ==> e.children.value[c] == 1 && c != u.zero && u.rank(c) < u.rank(h))
  }

  ghost predicate Genuine<K(!new)>(u: Universe<K>, d: Dirties<K>, order: seq<K>) {
    && (forall h :: h in order && h in d ==> GenuineNode(u, h, d[h]))
    && u.zero in d && d[u.zero].kids == [] && d[u.zero].children.Some?
    && (forall c :: c in d[u.zero].children.value ==> c != u.zero && d[u.zero].children.value[c] > 0)
  }

  /** The disk holds true contents, and what came there as a node has its embedded children there. */
  ghost predicate Closed<K(!new)>(u: Universe<K>, disk: map<K, seq<byte>>, plain: set<K>) {
    && plain <= disk.Keys && (forall h :: h in disk ==> h != u.zero && disk[h] == u.blob(h))
    && forall h, c :: h in disk && h !in plain && c in u.kids(h) ==> c in disk
  }

  /** Whatever a listed node refers to is on disk or was listed before it. */
  ghost predicate Placed<K(!new)>(d: Dirties<K>, disk: map<K, seq<byte>>, order: seq<K>) {
    forall i, c :: 0 <= i < |order| && order[i] in d && Cnt(d[order[i]], c) > 0 ==> c in disk || c in order[..i]
  }

  /** Whatever the meta-root refers to is on disk or listed. */
  ghost predicate Rooted<K(!new)>(zero: K, d: Dirties<K>, disk: map<K, seq<byte>>, order: seq<K>) {
    forall c :: zero in d && Cnt(d[zero], c) > 0 ==> c in disk || c in order
  }

  /** Off the disk, the parent counter is the number of live references plus those still to be taken back. */
  ghost predicate Counted<K(!new)>(zero: K, d: Dirties<K>, disk: map<K, seq<byte>>, order: seq<K>, owed: multiset<K>) {
    forall c :: c in order && c in d && c !in disk ==> d[c].parents == Refs(zero, d, order, c) + owed[c]
  }

  /** The dirty nodes are the meta-root, the listed ones, and those being torn down. */
  ghost predicate Keyed<K(!new)>(zero: K, d: Dirties<K>, order: seq<K>, dying: seq<K>) {
    && (forall k :: k in d <==> k == zero || k in order || k in dying)
    && zero !in dying && Distinct(dying) && forall k :: k in dying ==> k !in order
  }

  ghost predicate Inv<K(!new)>(u: Universe<K>, s: Cache<K>, dying: seq<K>, owed: multiset<K>) {
    && u.Valid()
    && Chain(u.zero, s.d, s.order, s.oldest, s.newest)
    && Keyed(u.zero, s.d, s.order, dying)
    && Genuine(u, s.d, s.order)
    && Closed(u, s.disk, s.plain)
    && Placed(s.d, s.disk, s.order)
    && Rooted(u.zero, s.d, s.disk, s.order)
    && Counted(u.zero, s.d, s.disk, s.order, owed)
  }

  // ---- taking a node off the list ----

  lemma PlacedDrop<K(!new)>(d: Dirties<K>, disk: map<K, seq<byte>>, order: seq<K>, i: nat)
    requires Placed(d, disk, order) && i < |order|
    requires order[i] in disk || forall h :: h in order && h in d ==> Cnt(d[h], order[i]) == 0
    ensures Placed(d, disk, Drop(order, i))
  {
    hide Cnt;
    var r := Drop(order, i);
    forall j, c | 0 <= j < |r| && r[j] in d && Cnt(d[r[j]], c) > 0
      ensures c in disk || c in r[..j]
    {
      var o := if j < i then j else j + 1;
      assert r[j] == order[o];
      if c !in disk {
        assert c in order[..o];
        var k :| 0 <= k < o && order[k] == c;
        assert k != i;
        assert r[if k < i then k else k - 1] == c;
      }
    }
  }

  lemma PlacedFrame<K(!new)>(d: Dirties<K>, d': Dirties<K>, disk: map<K, seq<byte>>, order: seq<K>)
    requires Placed(d, disk, order)
    requires forall h :: h in order ==>
      h in d && (h in d' ==> d'[h].kids == d[h].kids && d'[h].children == d[h].children)
    ensures Placed(d', disk, order)
  {}

  lemma GenuineFrame<K(!new)>(u: Universe<K>, d: Dirties<K>, d': Dirties<K>, order: seq<K>, order': seq<K>)
    requires Genuine(u, d, order) && SameRefs(u.zero, d, d', order')
    requires forall h :: h in order' ==> h in order && d'[h].blob == d[h].blob && d'[h].size == d[h].size
    ensures Genuine(u, d', order')
  {
    hide Distinct;
  }

  lemma CountedFrame<K(!new)>(zero: K, d: Dirties<K>, d': Dirties<K>, disk: map<K, seq<byte>>, order: seq<K>,
                              owed: multiset<K>)
    requires Counted(zero, d, disk, order, owed) && SameRefs(zero, d, d', order)
    requires forall h :: h in order ==> d'[h].parents == d[h].parents
    ensures Counted(zero, d', disk, order, owed)
  {
    hide Refs;
    forall c | c in order
      ensures Refs(zero, d', order, c) == Refs(zero, d, order, c)
    {
      RefsSame(zero, d, d', order, c);
    }
  }

  lemma CountedDrop<K(!new)>(zero: K, d: Dirties<K>, disk: map<K, seq<byte>>, order: seq<K>, i: nat, owed: multiset<K>,
                             ch: multiset<K>)
    requires Counted(zero, d, disk, order, owed) && i < |order| && order[i] in d
    requires forall c :: ch[c] == Cnt(d[order[i]], c)
    ensures Counted(zero, d, disk, Drop(order, i), owed + ch)
  {
    hide Refs;
    hide Cnt;
    var r := Drop(order, i);
    forall c | c in r && c in d && c !in disk
      ensures d[c].parents == Refs(zero, d, r, c) + (owed + ch)[c]
    {
      assert c in order;
      RefsDrop(zero, d, order, i, c);
    }
  }

  /** A node leaves the list once it is on disk or nothing refers to it; what it refers to becomes owed. */
  lemma Detach<K(!new)>(u: Universe<K>, s: Cache<K>, dying: seq<K>, owed: multiset<K>, i: nat, ch: multiset<K>)
    requires Inv(u, s, dying, owed) && i < |s.order|
    requires s.order[i] in s.disk || Refs(u.zero, s.d, s.order, s.order[i]) == 0
    requires s.order[i] in s.d && forall c :: ch[c] == Cnt(s.d[s.order[i]], c)
    ensures var h := s.order[i]; s.d[h].flushNext in s.d && (h != s.oldest ==> s.d[h].flushPrev in s.d)
    ensures
      var (d', o', n') := Unlink(u.zero, s.d, s.oldest, s.newest, s.order[i]);
      && Inv(u, s.(d := d', order := Drop(s.order, i), oldest := o', newest := n'), dying + [s.order[i]], owed + ch)
      && Relinked(s.d, d', s.order, u.zero)
  {
    hide Chain;
    hide Unlink;
    hide Refs;
    hide Cnt;
    hide GenuineNode;
    hide Distinct;
    var (h, r) := (s.order[i], Drop(s.order, i));
    ChainFacts(u.zero, s.d, s.order, s.oldest, s.newest);
    UnlinkChain(u.zero, s.d, s.order, s.oldest, s.newest, i);
    DropMembers(s.order, i);
    var (d', o', n') := Unlink(u.zero, s.d, s.oldest, s.newest, h);
    if h !in s.disk {
      Unreferenced(u.zero, s.d, s.order, h);
    }
    PlacedDrop(s.d, s.disk, s.order, i);
    CountedDrop(u.zero, s.d, s.disk, s.order, i, owed, ch);
    DetachFrame(u, s, dying, owed + ch, h, r, d');
  }

  lemma DetachFrame<K(!new)>(u: Universe<K>, s: Cache<K>, dying: seq<K>, owed: multiset<K>, h: K, r: seq<K>,
                             d': Dirties<K>)
    requires Keyed(u.zero, s.d, s.order, dying) && h in s.order && h != u.zero && u.zero !in s.order
    requires forall x :: x in r <==> x in s.order && x != h
    requires Genuine(u, s.d, s.order) && Placed(s.d, s.disk, r) && Counted(u.zero, s.d, s.disk, r, owed)
    requires Rooted(u.zero, s.d, s.disk, s.order) && (h in s.disk || Cnt(s.d[u.zero], h) == 0)
    requires Relinked(s.d, d', s.order, u.zero)
    ensures Keyed(u.zero, d', r, dying + [h]) && Genuine(u, d', r)
    ensures Placed(d', s.disk, r) && Rooted(u.zero, d', s.disk, r) && Counted(u.zero, d', s.disk, r, owed)
  {
    hide Refs;
    hide GenuineNode;
    hide Cnt;
    GenuineFrame(u, s.d, d', s.order, r);
    PlacedFrame(s.d, d', s.disk, r);
    CountedFrame(u.zero, s.d, d', s.disk, r, owed);
    CntSame(s.d[u.zero], d'[u.zero]);
  }

  lemma CntSame<K(!new)>(a: CachedNode<K>, b: CachedNode<K>)
    requires a.kids == b.kids && a.children == b.children
    ensures forall c :: Cnt(a, c) == Cnt(b, c)
  {}

  lemma ChainFacts<K(!new)>(zero: K, d: Dirties<K>, order: seq<K>, oldest: K, newest: K)
    requires Chain(zero, d, order, oldest, newest)
    ensures zero in d && zero !in order && Distinct(order)
    ensures forall h :: h in order ==> h in d
  {}

  /** A torn-down node is deleted. */
  lemma Bury<K(!new)>(u: Universe<K>, s: Cache<K>, dying: seq<K>, owed: multiset<K>, h: K)
    requires Inv(u, s, dying + [h], owed)
    ensures Inv(u, s.(d := s.d - {h}), dying, owed)
  {
    hide Forward;
    hide Backward;
    hide Refs;
    hide Cnt;
    hide GenuineNode;
    var d' := s.d - {h};
    assert (dying + [h])[|dying|] == h;
    assert h in dying + [h];
    assert forall k :: k in dying ==> k in dying + [h];
    assert forall k :: k in dying + [h] ==> k in dying || k == h;
    BuryKeys(u.zero, s.d, s.order, dying, h);
    ChainFacts(u.zero, s.d, s.order, s.oldest, s.newest);
    ForwardFrame(u.zero, s.d, d', s.order);
    BackwardFrame(s.d, d', s.order);
    GenuineFrame(u, s.d, d', s.order, s.order);
    PlacedFrame(s.d, d', s.disk, s.order);
    CountedFrame(u.zero, s.d, d', s.disk, s.order, owed);
  }

  lemma BuryKeys<K(!new)>(zero: K, d: Dirties<K>, order: seq<K>, dying: seq<K>, h: K)
    requires Keyed(zero, d, order, dying + [h])
    ensures Keyed(zero, d - {h}, order, dying) && h !in order && h != zero && h !in dying
  {
    var all := dying + [h];
    assert all[|dying|] == h;
    assert forall i :: 0 <= i < |dying| ==> all[i] == dying[i];
    assert forall k :: k in all <==> k in dying || k == h;
    assert h in all;
  }

  /** Taking back one reference. */
  function Decremented<K(==)>(d: Dirties<K>, h: K): (d': Dirties<K>)
    requires h in d
  {
    d[h := d[h].(parents := if d[h].parents > 0 then d[h].parents - 1 else 0)]
  }

  lemma Decrement<K(!new)>(u: Universe<K>, s: Cache<K>, dying: seq<K>, owed: multiset<K>, h: K)
    requires Inv(u, s, dying, owed) && h in s.d && h != u.zero && h !in dying
    requires owed[h] > 0 || h in s.disk || s.d[h].parents == 0
    ensures Inv(u, s.(d := Decremented(s.d, h)), dying, owed - multiset{h})
  {
    hide Forward;
    hide Backward;
    hide Refs;
    hide Cnt;
    hide GenuineNode;
    hide Distinct;
    var d' := Decremented(s.d, h);
    ChainFacts(u.zero, s.d, s.order, s.oldest, s.newest);
    ForwardFrame(u.zero, s.d, d', s.order);
    BackwardFrame(s.d, d', s.order);
    GenuineFrame(u, s.d, d', s.order, s.order);
    PlacedFrame(s.d, d', s.disk, s.order);
    CntSame(s.d[u.zero], d'[u.zero]);
    forall c | c in s.order && c !in s.disk
      ensures d'[c].parents == Refs(u.zero, d', s.order, c) + (owed - multiset{h})[c]
    {
      RefsSame(u.zero, s.d, d', s.order, c);
      Unreferenced(u.zero, s.d, s.order, c);
    }
  }

  /** References to nodes on disk need not be taken back. */
  lemma Settle<K(!new)>(u: Universe<K>, s: Cache<K>, dying: seq<K>, owed: multiset<K>, ch: multiset<K>)
    requires Inv(u, s, dying, owed + ch) && forall c :: c in ch ==> c in s.disk
    ensures Inv(u, s, dying, owed)
  {
    hide Chain;
    hide Refs;
    hide Cnt;
  }

  // ---- byte accounting ----

  const HASH_LENGTH := 32
  const LINK_SIZE := 34
  const CHILDREN_SIZE := 48

  function LinkBytes<K(==)>(e: CachedNode<K>): (n: nat) {
    match e.children case None => 0 case Some(m) => CHILDREN_SIZE + LINK_SIZE * |m|
  }

  /** What a node itself takes, and what its link map takes. */
  function NodeBytes<K(==)>(d: Dirties<K>): (f: K -> int) {
    h => if h in d then HASH_LENGTH + d[h].size else 0
  }

  function MapBytesOf<K(==)>(d: Dirties<K>): (f: K -> int) {
    h => if h in d then LinkBytes(d[h]) else 0
  }

  function MetaBytes<K(==)>(zero: K, d: Dirties<K>): (n: nat) {
    if zero in d && d[zero].children.Some? then LINK_SIZE * |d[zero].children.value| else 0
  }

  /** The two byte counts: of the nodes, and of their link maps. */
  datatype Sizes = Sizes(nodes: int, links: int)

  /** The counts without one node. */
  function Without<K(==)>(size: Sizes, e: CachedNode<K>): (r: Sizes) {
    Sizes(size.nodes - HASH_LENGTH - e.size, size.links - LinkBytes(e))
  }

  /** The counts with a link map of a different size. */
  function Remapped(size: Sizes, was: int, now: int): (r: Sizes) {
    size.(links := size.links - was + now)
  }

  /** What the cached nodes weigh, those being torn down included. */
  function Weight<K(==)>(zero: K, d: Dirties<K>, order: seq<K>, dying: seq<K>): (n: Sizes) {
    Sizes(Sum(NodeBytes(d), order) + Sum(NodeBytes(d), dying),
      Sum(MapBytesOf(d), order) + Sum(MapBytesOf(d), dying) + MetaBytes(zero, d))
  }

  lemma WeightSame<K(!new)>(zero: K, d: Dirties<K>, d': Dirties<K>, order: seq<K>, dying: seq<K>)
    requires forall h :: h == zero || h in order || h in dying ==>
      h in d && h in d' && d'[h].size == d[h].size && d'[h].children == d[h].children
    ensures Weight(zero, d', order, dying) == Weight(zero, d, order, dying)
  {
    SumSame(NodeBytes(d), NodeBytes(d'), order);
    SumSame(NodeBytes(d), NodeBytes(d'), dying);
    SumSame(MapBytesOf(d), MapBytesOf(d'), order);
    SumSame(MapBytesOf(d), MapBytesOf(d'), dying);
  }

  lemma SumMove<K(!new)>(f: K -> int, order: seq<K>, dying: seq<K>, i: nat)
    requires i < |order|
    ensures Sum(f, Drop(order, i)) + Sum(f, dying + [order[i]]) == Sum(f, order) + Sum(f, dying)
  {
    SumDrop(f, order, i);
    SumConcat(f, dying, [order[i]]);
    assert Sum(f, [order[i]]) == f(order[i]);
  }

  lemma WeightMove<K(!new)>(zero: K, d: Dirties<K>, order: seq<K>, dying: seq<K>, i: nat)
    requires i < |order|
    ensures Weight(zero, d, Drop(order, i), dying + [order[i]]) == Weight(zero, d, order, dying)
  {
    SumMove(NodeBytes(d), order, dying, i);
    SumMove(MapBytesOf(d), order, dying, i);
  }

  lemma SumBury<K(!new)>(f: K -> int, g: K -> int, order: seq<K>, dying: seq<K>, h: K)
    requires h !in order && h !in dying && forall x :: x != h ==> g(x) == f(x)
    ensures Sum(g, order) + Sum(g, dying) == Sum(f, order) + Sum(f, dying + [h]) - f(h)
  {
    SumSame(f, g, order);
    SumSame(f, g, dying);
    SumConcat(f, dying, [h]);
    assert Sum(f, [h]) == f(h);
  }

  lemma WeightBury<K(!new)>(zero: K, d: Dirties<K>, order: seq<K>, dying: seq<K>, h: K)
    requires h in d && h !in order && h !in dying && h != zero
    ensures Weight(zero, d - {h}, order, dying) == Without(Weight(zero, d, order, dying + [h]), d[h])
  {
    SumBury(NodeBytes(d), NodeBytes(d - {h}), order, dying, h);
    SumBury(MapBytesOf(d), MapBytesOf(d - {h}), order, dying, h);
  }

  // ---- external links ----

  /** The node with one external link to c less. */
  function Unlinked<K(==)>(e: CachedNode<K>, c: K): (e': CachedNode<K>) {
    if e.children.Some? && c in e.children.value && e.children.value[c] > 0 then
      var m := e.children.value;
      e.(children := Some(if m[c] == 1 then m - {c} else m[c := m[c] - 1]))
    else e
  }

  /** Below a node that is being torn down the invariant does not look at links. */
  lemma UnlinkDying<K(!new)>(u: Universe<K>, s: Cache<K>, dying: seq<K>, owed: multiset<K>, p: K, c: K)
    requires Inv(u, s, dying, owed) && p in dying && p in s.d
    ensures Inv(u, s.(d := s.d[p := Unlinked(s.d[p], c)]), dying, owed)
  {
    hide Forward;
    hide Backward;
    hide Refs;
    hide Cnt;
    hide GenuineNode;
    hide Unlinked;
    hide Distinct;
    var d' := s.d[p := Unlinked(s.d[p], c)];
    ChainFacts(u.zero, s.d, s.order, s.oldest, s.newest);
    ForwardFrame(u.zero, s.d, d', s.order);
    BackwardFrame(s.d, d', s.order);
    GenuineFrame(u, s.d, d', s.order, s.order);
    PlacedFrame(s.d, d', s.disk, s.order);
    CountedFrame(u.zero, s.d, d', s.disk, s.order, owed);
  }

  /** A link the meta-root gives up is owed by the child's counter. */
  lemma UnlinkedCnt<K(!new)>(e: CachedNode<K>, c: K, owed: multiset<K>)
    requires e.kids == [] && e.children.Some? && owed == if Cnt(e, c) > 0 then multiset{c} else multiset{}
    ensures forall x :: Cnt(Unlinked(e, c), x) == Cnt(e, x) - owed[x]
  {}

  lemma UnlinkMeta<K(!new)>(u: Universe<K>, s: Cache<K>, c: K)
    requires Inv(u, s, [], multiset{})
    ensures u.zero in s.d
    ensures
      var owed := if Cnt(s.d[u.zero], c) > 0 then multiset{c} else multiset{};
      Inv(u, s.(d := s.d[u.zero := Unlinked(s.d[u.zero], c)]), [], owed)
  {
    hide Forward;
    hide Backward;
    hide Refs;
    hide Distinct;
    hide GenuineNode;
    var e := s.d[u.zero];
    var d' := s.d[u.zero := Unlinked(e, c)];
    ChainFacts(u.zero, s.d, s.order, s.oldest, s.newest);
    ForwardFrame(u.zero, s.d, d', s.order);
    BackwardFrame(s.d, d', s.order);
    PlacedFrame(s.d, d', s.disk, s.order);
    var owed := if Cnt(e, c) > 0 then multiset{c} else multiset{};
    UnlinkedCnt(e, c, owed);
    forall x | x in s.order && x !in s.disk
      ensures d'[x].parents == Refs(u.zero, d', s.order, x) + owed[x]
    {
      RefsMeta(u.zero, s.d, d', s.order, x);
    }
  }

  lemma RefsMeta<K(!new)>(zero: K, d: Dirties<K>, d': Dirties<K>, order: seq<K>, c: K)
    requires zero in d && zero in d' && forall h :: h in order ==> h in d && h in d' && d'[h] == d[h]
    ensures Refs(zero, d', order, c) - Cnt(d'[zero], c) == Refs(zero, d, order, c) - Cnt(d[zero], c)
  {
    SumSame(CountOf(d, c), CountOf(d', c), order);
  }

  // ---- a node joins the list ----

  /** Every child that is cached has gained one parent per occurrence. */
  ghost predicate Bumped<K(!new)>(d: Dirties<K>, d': Dirties<K>, kids: seq<K>) {
    && d'.Keys == d.Keys
    && forall k :: k in d ==> d'[k] == d[k].(parents := d[k].parents + multiset(kids)[k])
  }

  /** The new last entry and the end pointers, as insert leaves them. */
  function Appended<K(==)>(zero: K, d: Dirties<K>, oldest: K, newest: K, h: K,
                           e: CachedNode<K>): (r: (Dirties<K>, K, K))
    requires oldest != zero ==> newest in d
  {
    if oldest == zero then (d[h := e], h, h) else (SetNext(d[h := e], newest, h), oldest, h)
  }

  lemma AppendChain<K(!new)>(zero: K, d: Dirties<K>, order: seq<K>, oldest: K, newest: K, h: K, e: CachedNode<K>)
    requires Chain(zero, d, order, oldest, newest) && h !in d && e.flushPrev == newest && e.flushNext == zero
    ensures oldest != zero ==> newest in d && newest in order
    ensures
      var (d', o', n') := Appended(zero, d, oldest, newest, h, e);
      && Chain(zero, d', order + [h], o', n') && d'.Keys == d.Keys + {h} && SameNode(d'[h], e)
      && forall k :: k in d ==> SameNode(d[k], d'[k])
  {
    var r := order + [h];
    assert forall i :: 0 <= i < |order| ==> r[i] == order[i] && order[i] != h;
    if order != [] {
      assert order[|order| - 1] == newest;
    }
    var (d', o', n') := Appended(zero, d, oldest, newest, h, e);
    forall i | 0 <= i < |r|
      ensures r[i] in d' && d'[r[i]].flushNext == NextOf(zero, r, i)
    {
      if i < |order| - 1 {
        assert NextOf(zero, order, i) == NextOf(zero, r, i);
      }
    }
  }

  lemma {:induction false} AppendRefs<K(!new)>(zero: K, d: Dirties<K>, d': Dirties<K>, order: seq<K>, h: K, c: K)
    requires SameRefs(zero, d, d', order) && h in d'
    ensures Refs(zero, d', order + [h], c) == Refs(zero, d, order, c) + Cnt(d'[h], c)
  {
    hide Cnt;
    RefsSame(zero, d, d', order, c);
    SumConcat(CountOf(d', c), order, [h]);
    assert Sum(CountOf(d', c), [h]) == CountOf(d', c)(h);
  }

  /** Nothing refers to a node that is neither listed nor on disk. */
  lemma NoRefs<K(!new)>(zero: K, d: Dirties<K>, disk: map<K, seq<byte>>, order: seq<K>, h: K)
    requires Placed(d, disk, order) && Rooted(zero, d, disk, order) && zero in d && h !in order && h !in disk
    requires forall x :: x in order ==> x in d
    ensures Refs(zero, d, order, h) == 0
  {
    hide Cnt;
    forall x | x in order
      ensures CountOf(d, h)(x) == 0
    {
      var i :| 0 <= i < |order| && order[i] == x;
      assert h !in order[..i];
    }
    SumZero(CountOf(d, h), order);
  }

  lemma AppendInv<K(!new)>(u: Universe<K>, s: Cache<K>, d1: Dirties<K>, h: K, e: CachedNode<K>)
    requires Inv(u, s, [], multiset{}) && h !in s.d && Bumped(s.d, d1, e.kids)
    requires GenuineNode(u, h, e) && e.children == None && e.parents == 0 && e.flushPrev == s.newest
    requires e.flushNext == u.zero
    requires forall c :: c in e.kids ==> c in s.d || c in s.disk
    ensures s.oldest != u.zero ==> s.newest in d1
    ensures
      var (d', o', n') := Appended(u.zero, d1, s.oldest, s.newest, h, e);
      Inv(u, s.(d := d', order := s.order + [h], oldest := o', newest := n'), [], multiset{})
  {
    hide Chain;
    hide Appended;
    hide Refs;
    hide Cnt;
    hide Distinct;
    hide GenuineNode;
    hide Genuine;
    hide Placed;
    hide Counted;
    BumpedChain(u, s, d1, e.kids);
    AppendChain(u.zero, d1, s.order, s.oldest, s.newest, h, e);
    var (d', o', n') := Appended(u.zero, d1, s.oldest, s.newest, h, e);
    KidsCnt(u, h, e);
    AppendGenuine(u, s.d, d', s.order, h, e);
    AppendPlaced(u.zero, s, d', h, e);
    CntSame(s.d[u.zero], d'[u.zero]);
    AppendCounted(u, s, d1, d', h, e);
  }

  lemma BumpedChain<K(!new)>(u: Universe<K>, s: Cache<K>, d1: Dirties<K>, kids: seq<K>)
    requires Inv(u, s, [], multiset{}) && Bumped(s.d, d1, kids)
    ensures Chain(u.zero, d1, s.order, s.oldest, s.newest) && u.zero in s.d && u.zero !in s.order
    ensures forall h :: h in s.order ==> h in s.d
  {
    hide Forward;
    hide Backward;
    hide Distinct;
    hide Genuine;
    hide Placed;
    hide Counted;
    hide Cnt;
    ChainFacts(u.zero, s.d, s.order, s.oldest, s.newest);
    ForwardFrame(u.zero, s.d, d1, s.order);
    BackwardFrame(s.d, d1, s.order);
  }

  lemma AppendCounted<K(!new)>(u: Universe<K>, s: Cache<K>, d1: Dirties<K>, d': Dirties<K>, h: K, e: CachedNode<K>)
    requires Inv(u, s, [], multiset{}) && h !in s.d && Bumped(s.d, d1, e.kids) && e.parents == 0
    requires u.zero in s.d && forall x :: x in s.order ==> x in s.d
    requires d'.Keys == d1.Keys + {h} && SameNode(d'[h], e) && forall k :: k in d1 ==> SameNode(d1[k], d'[k])
    requires Cnt(e, h) == 0 && forall c :: Cnt(e, c) == multiset(e.kids)[c]
    ensures Counted(u.zero, d', s.disk, s.order + [h], multiset{})
  {
    hide Chain;
    hide Genuine;
    hide Placed;
    hide Refs;
    hide Cnt;
    CntSame(e, d'[h]);
    forall c | c in s.order + [h] && c !in s.disk
      ensures d'[c].parents == Refs(u.zero, d', s.order + [h], c)
    {
      AppendRefs(u.zero, s.d, d', s.order, h, c);
      if c == h {
        NoRefs(u.zero, s.d, s.disk, s.order, h);
      }
    }
  }

  lemma KidsCnt<K(!new)>(u: Universe<K>, h: K, e: CachedNode<K>)
    requires u.Valid() && GenuineNode(u, h, e) && e.children == None
    ensures Cnt(e, h) == 0 && u.zero !in e.kids
    ensures forall c :: Cnt(e, c) == multiset(e.kids)[c] && (Cnt(e, c) > 0 ==> c in e.kids)
  {
    forall c | c in e.kids
      ensures c != u.zero && c != h
    {
      KidLies(u, h, c);
    }
    assert h !in e.kids;
    assert multiset(e.kids)[h] == 0;
  }

  lemma KidLies<K(!new)>(u: Universe<K>, h: K, c: K)
    requires u.Valid() && c in u.kids(h)
    ensures c != u.zero && u.rank(c) < u.rank(h)
  {}

  lemma AppendGenuine<K(!new)>(u: Universe<K>, d: Dirties<K>, d': Dirties<K>, order: seq<K>, h: K, e: CachedNode<K>)
    requires Genuine(u, d, order) && GenuineNode(u, h, e) && u.zero in d && (forall x :: x in order ==> x in d)
    requires d'.Keys == d.Keys + {h} && SameNode(d'[h], e) && h !in d
    requires forall k :: k in d ==>
      d'[k].blob == d[k].blob && d'[k].size == d[k].size && d'[k].kids == d[k].kids && d'[k].children == d[k].children
    ensures Genuine(u, d', order + [h])
  {}

  lemma AppendPlaced<K(!new)>(zero: K, s: Cache<K>, d': Dirties<K>, h: K, e: CachedNode<K>)
    requires Placed(s.d, s.disk, s.order) && Keyed(zero, s.d, s.order, []) && zero !in s.order && zero !in e.kids
    requires d'.Keys == s.d.Keys + {h} && SameNode(d'[h], e) && h !in s.d
    requires forall k :: k in s.d ==> d'[k].kids == s.d[k].kids && d'[k].children == s.d[k].children
    requires forall c :: Cnt(e, c) > 0 ==> c in e.kids
    requires forall c :: c in e.kids ==> c in s.d || c in s.disk
    ensures Placed(d', s.disk, s.order + [h])
  {
    hide Cnt;
    hide Distinct;
    var r := s.order + [h];
    CntSame(e, d'[h]);
    assert r[..|s.order|] == s.order;
    forall i, c | 0 <= i < |r| && r[i] in d' && Cnt(d'[r[i]], c) > 0
      ensures c in s.disk || c in r[..i]
    {
      if i < |s.order| {
        assert r[..i] == s.order[..i];
        CntSame(s.d[s.order[i]], d'[s.order[i]]);
      }
    }
  }

  // ---- a node gains an external link ----

  /** The node with one external link to c more. */
  function Linked<K(==)>(e: CachedNode<K>, c: K): (e': CachedNode<K>) {
    var m := if e.children.Some? then e.children.value else map[];
    e.(children := Some(m[c := if c in m then m[c] + 1 else 1]))
  }

  function Raised<K(==)>(d: Dirties<K>, c: K): (d': Dirties<K>)
    requires c in d
  {
    d[c := d[c].(parents := d[c].parents + 1)]
  }

  /** A node may link to a child that is on disk or was listed before it; the meta-root to any listed or stored node. */
  ghost predicate MayLink<K(!new)>(u: Universe<K>, s: Cache<K>, c: K, p: K) {
    if p == u.zero then true
    else
      && p in s.d && (s.d[p].children.Some? ==> c !in s.d[p].children.value)
      && u.rank(c) < u.rank(p)
      && exists i :: 0 <= i < |s.order| && s.order[i] == p && (c in s.disk || c in s.order[..i])
  }

  lemma LinkedCnt<K(!new)>(e: CachedNode<K>, c: K)
    ensures forall x :: Cnt(Linked(e, c), x) == Cnt(e, x) + if x == c then 1 else 0
  {}

  lemma LinkInv<K(!new)>(u: Universe<K>, s: Cache<K>, c: K, p: K)
    requires Inv(u, s, [], multiset{}) && c in s.d && c != u.zero && p in s.d && MayLink(u, s, c, p)
    ensures c != p
    ensures var d1 := Raised(s.d, c); Inv(u, s.(d := d1[p := Linked(d1[p], c)]), [], multiset{})
  {
    hide Forward;
    hide Backward;
    hide Refs;
    hide Cnt;
    hide Distinct;
    hide GenuineNode;
    hide Genuine;
    hide Placed;
    hide Linked;
    var d1 := Raised(s.d, c);
    var d' := d1[p := Linked(d1[p], c)];
    ChainFacts(u.zero, s.d, s.order, s.oldest, s.newest);
    LinkChain(u, s, c, p, d');
    LinkGenuine(u, s, c, p, d');
    LinkPlaced(u, s, c, p, d');
    LinkRefs(u, s, c, p, d');
    LinkedCnt(d1[p], c);
    CntSame(s.d[p], d1[p]);
  }

  lemma LinkChain<K(!new)>(u: Universe<K>, s: Cache<K>, c: K, p: K, d': Dirties<K>)
    requires Chain(u.zero, s.d, s.order, s.oldest, s.newest) && c in s.d && p in s.d && c != p
    requires d' == Raised(s.d, c)[p := Linked(Raised(s.d, c)[p], c)]
    ensures Chain(u.zero, d', s.order, s.oldest, s.newest) && d'.Keys == s.d.Keys
  {
    hide Forward;
    hide Backward;
    hide Distinct;
    ChainFacts(u.zero, s.d, s.order, s.oldest, s.newest);
    ForwardFrame(u.zero, s.d, d', s.order);
    BackwardFrame(s.d, d', s.order);
  }

  lemma LinkGenuine<K(!new)>(u: Universe<K>, s: Cache<K>, c: K, p: K, d': Dirties<K>)
    requires Genuine(u, s.d, s.order) && c in s.d && c != u.zero && p in s.d && c != p && MayLink(u, s, c, p)
    requires u.zero !in s.order && forall h :: h in s.order ==> h in s.d
    requires d' == Raised(s.d, c)[p := Linked(Raised(s.d, c)[p], c)]
    ensures Genuine(u, d', s.order)
  {
    forall h | h in s.order
      ensures GenuineNode(u, h, d'[h])
    {
      assert GenuineNode(u, h, s.d[h]);
    }
  }

  lemma LinkPlaced<K(!new)>(u: Universe<K>, s: Cache<K>, c: K, p: K, d': Dirties<K>)
    requires Placed(s.d, s.disk, s.order) && c in s.d && c != u.zero && p in s.d && c != p && MayLink(u, s, c, p)
    requires Distinct(s.order) && u.zero !in s.order
    requires d' == Raised(s.d, c)[p := Linked(Raised(s.d, c)[p], c)]
    ensures Placed(d', s.disk, s.order)
  {
    hide Cnt;
    hide Linked;
    LinkedCnt(Raised(s.d, c)[p], c);
    CntSame(s.d[p], Raised(s.d, c)[p]);
    CntSame(s.d[c], d'[c]);
    forall i, x | 0 <= i < |s.order| && s.order[i] in d' && Cnt(d'[s.order[i]], x) > 0
      ensures x in s.disk || x in s.order[..i]
    {
      if s.order[i] == p && x == c {
        var j :| 0 <= j < |s.order| && s.order[j] == p && (c in s.disk || c in s.order[..j]);
        assert i == j;
      } else {
        assert Cnt(s.d[s.order[i]], x) > 0;
      }
    }
  }

  lemma LinkRefs<K(!new)>(u: Universe<K>, s: Cache<K>, c: K, p: K, d': Dirties<K>)
    requires Inv(u, s, [], multiset{}) && c in s.d && c != u.zero && p in s.d && c != p
    requires d' == Raised(s.d, c)[p := Linked(Raised(s.d, c)[p], c)]
    ensures Counted(u.zero, d', s.disk, s.order, multiset{})
  {
    hide Chain;
    hide Refs;
    hide Cnt;
    hide Genuine;
    hide Placed;
    hide Rooted;
    hide Linked;
    ChainFacts(u.zero, s.d, s.order, s.oldest, s.newest);
    forall x | x in s.order && x !in s.disk
      ensures d'[x].parents == Refs(u.zero, d', s.order, x)
    {
      LinkOne(u.zero, s.d, d', s.order, c, p, x);
      LinkedParents(s.d, c, p, d', x);
    }
  }

  lemma LinkedParents<K(!new)>(d: Dirties<K>, c: K, p: K, d': Dirties<K>, x: K)
    requires c in d && p in d && x in d && c != p && d' == Raised(d, c)[p := Linked(Raised(d, c)[p], c)]
    ensures d'[x].parents == d[x].parents + if x == c then 1 else 0
  {}

  lemma LinkOne<K(!new)>(zero: K, d: Dirties<K>, d': Dirties<K>, order: seq<K>, c: K, p: K, x: K)
    requires c in d && p in d && c != p && Distinct(order) && zero !in order && zero in d && (p == zero || p in order)
    requires forall h :: h in order ==> h in d
    requires d' == Raised(d, c)[p := Linked(Raised(d, c)[p], c)]
    ensures Refs(zero, d', order, x) == Refs(zero, d, order, x) + if x == c then 1 else 0
  {
    hide Linked;
    hide Cnt;
    LinkedCnt(Raised(d, c)[p], c);
    CntSame(d[p], Raised(d, c)[p]);
    CntSame(d[c], d'[c]);
    if p == zero {
      SumSame(CountOf(d, x), CountOf(d', x), order);
    } else {
      var i :| 0 <= i < |order| && order[i] == p;
      DropMembers(order, i);
      SumDrop(CountOf(d, x), order, i);
      SumDrop(CountOf(d', x), order, i);
      SumSame(CountOf(d, x), CountOf(d', x), Drop(order, i));
    }
  }
}
