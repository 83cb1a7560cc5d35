/**
 * Pre-order of a trie: which nodes an iteration visits (proton/trie/iterator.go), in which
 * order of paths, and how the visited leaves relate to lookups.
 */
module TrieVisit {
  import opened Bytes
  import opened TrieEncoding
  import opened TrieTree

  // ---- order of paths ----

  /** Less, in the order of bytes.Compare: byte by byte, a proper prefix first. */
  predicate Less(a: Hex, b: Hex) {
    if b == [] then false
    else if a == [] then true
    else if a[0] != b[0] then a[0] < b[0]
    else Less(a[1..], b[1..])
  }

  lemma {:induction false} LessTotal(a: Hex, b: Hex)
    ensures a == b || Less(a, b) || Less(b, a)
    ensures !(Less(a, b) && Less(b, a)) && (a == b ==> !Less(a, b))
  {
    if a != [] && b != [] && a[0] == b[0] {
      LessTotal(a[1..], b[1..]);
      if a[1..] == b[1..] {
        assert a == [a[0]] + a[1..] && b == [b[0]] + b[1..];
      }
    }
  }

  lemma {:induction false} LessTrans(a: Hex, b: Hex, c: Hex)
    requires Less(a, b) && Less(b, c)
    ensures Less(a, c)
  {
    if a != [] && a[0] == b[0] == c[0] {
      LessTrans(a[1..], b[1..], c[1..]);
    }
  }

  lemma {:induction false} LessCommon(p: Hex, a: Hex, b: Hex)
    ensures Less(p + a, p + b) <==> Less(a, b)
  {
    if p == [] {
      assert p + a == a && p + b == b;
    } else {
      LessCommon(p[1..], a, b);
      assert (p + a)[1..] == p[1..] + a && (p + b)[1..] == p[1..] + b;
    }
  }

  lemma LessExtended(p: Hex, q: Hex)
    requires p < q
    ensures Less(p, q)
  {
    LessCommon(p, [], q[|p|..]);
    assert p + [] == p && p + q[|p|..] == q;
  }

  lemma PrefixCons(p: Hex, q: Hex)
    requires p != [] && q != [] && p[0] == q[0]
    ensures p <= q <==> p[1..] <= q[1..]
  {
    assert p == [p[0]] + p[1..] && q == [q[0]] + q[1..];
  }

  /** A path that is less than a key but no prefix of it stays less however it goes on. */
  lemma {:induction false} LessSkips(p: Hex, key: Hex, q: Hex)
    requires Less(p, key) && !(p <= key) && p <= q
    ensures Less(q, key)
  {
    if p[0] == key[0] {
      PrefixCons(p, key);
      LessSkips(p[1..], key[1..], q[1..]);
    }
  }

  // ---- visits ----

  datatype Visit = Visit(path: Hex, tree: Tree)

  /** A node, then everything below it. */
  function Pre(t: Tree, path: Hex): (vs: seq<Visit>)
    ensures vs != [] && vs[0] == Visit(path, t)
    decreases t, 2
  {
    [Visit(path, t)] + After(t, path, -1)
  }

  /** What comes below a node after the child at the given position. */
  function After(t: Tree, path: Hex, index: int): (vs: seq<Visit>)
    decreases t, 1
  {
    match t
    case Ext(k, c) => if index < 0 then Pre(c, path + k) else []
    case Branch(subs) => if index < -1 then [] else PreFrom(subs, index + 1, path)
    case _ => []
  }

  function PreFrom(subs: seq<Tree>, i: nat, path: Hex): (vs: seq<Visit>)
    decreases subs, 0, |subs| - i
  {
    if i >= |subs| then []
    else (if subs[i] == Empty || i > 255 then [] else Pre(subs[i], path + [i])) + PreFrom(subs, i + 1, path)
  }

  ghost predicate Sorted(vs: seq<Visit>) {
    forall i, j :: 0 <= i < j < |vs| ==> Less(vs[i].path, vs[j].path)
  }

  lemma SortedJoin(a: seq<Visit>, b: seq<Visit>)
    requires Sorted(a) && Sorted(b) && forall x, y :: x in a && y in b ==> Less(x.path, y.path)
    ensures Sorted(a + b)
  {
    var c := a + b;
    forall i, j | 0 <= i < j < |c|
      ensures Less(c[i].path, c[j].path)
    {
      if i < |a| <= j {
        assert c[i] in a && c[j] in b;
      }
    }
  }

  /** All paths of a subtree extend the path to it, and they come in strictly increasing order. */
  lemma {:induction false} PreSorted(t: Tree, path: Hex)
    requires Minimal(t)
    ensures Sorted(Pre(t, path)) && forall x :: x in Pre(t, path) ==> path <= x.path
    decreases t, 1
  {
    var head := [Visit(path, t)];
    var rest := After(t, path, -1);
    match t {
      case Ext(k, c) =>
        PreSorted(c, path + k);
        forall x | x in rest
          ensures path < x.path
        {
          assert path + k <= x.path;
        }
      case Branch(subs) =>
        PreFromSorted(subs, 0, path);
      case _ =>
    }
    assert Sorted(rest) && forall x :: x in rest ==> path < x.path;
    forall x, y | x in head && y in rest
      ensures Less(x.path, y.path)
    {
      LessExtended(path, y.path);
    }
    SortedJoin(head, rest);
  }

  ghost predicate Slots(subs: seq<Tree>) {
    |subs| == 17 && (forall i :: 0 <= i < 16 ==> Canonical(subs[i])) && LeafSlot(subs[16])
  }

  lemma {:induction false} PreFromSorted(subs: seq<Tree>, i: nat, path: Hex)
    requires Slots(subs)
    ensures Sorted(PreFrom(subs, i, path))
    ensures forall x :: x in PreFrom(subs, i, path) ==> path < x.path && x.path[|path|] >= i
    decreases subs, 0, |subs| - i
  {
    hide Canonical;
    hide Less;
    hide Sorted;
    if i < |subs| {
      PreFromSorted(subs, i + 1, path);
      if subs[i] != Empty {
        PreSorted(subs[i], path + [i]);
        SlotBefore(Pre(subs[i], path + [i]), PreFrom(subs, i + 1, path), path, i);
      } else {
        assert PreFrom(subs, i, path) == [] + PreFrom(subs, i + 1, path) == PreFrom(subs, i + 1, path);
      }
    } else {
      assert Sorted([]) by { NoneSorted(); }
    }
  }

  lemma NoneSorted()
    ensures Sorted([])
  {}

  /** The subtree at one position comes before those at later ones. */
  lemma SlotBefore(a: seq<Visit>, b: seq<Visit>, path: Hex, i: byte)
    requires Sorted(a) && Sorted(b) && (forall x :: x in a ==> path + [i] <= x.path)
    requires forall y :: y in b ==> path < y.path && y.path[|path|] >= i + 1
    ensures Sorted(a + b) && forall x :: x in a + b ==> path < x.path && x.path[|path|] >= i
  {
    hide Sorted;
    hide Less;
    forall x, y | x in a && y in b
      ensures Less(x.path, y.path)
    {
      assert x.path[|path|] == i;
      LessAt(path, x.path, y.path);
    }
    SortedJoin(a, b);
  }

  lemma LessAt(path: Hex, p: Hex, q: Hex)
    requires path < p && path < q && p[|path|] < q[|path|]
    ensures Less(p, q)
  {
    LessCommon(path, p[|path|..], q[|path|..]);
    assert path + p[|path|..] == p && path + q[|path|..] == q;
  }

  // ---- leaves and lookups ----

  lemma {:induction false} PreFromHas(subs: seq<Tree>, i: nat, j: nat, path: Hex, x: Visit)
    requires |subs| <= 256 && i <= j < |subs| && subs[j] != Empty && x in Pre(subs[j], path + [j])
    ensures x in PreFrom(subs, i, path)
    decreases j - i
  {
    if i < j {
      PreFromHas(subs, i + 1, j, path, x);
    }
  }

  lemma {:induction false} PreFromOf(subs: seq<Tree>, i: nat, path: Hex, x: Visit) returns (j: nat)
    requires |subs| <= 256 && x in PreFrom(subs, i, path)
    ensures i <= j < |subs| && subs[j] != Empty && x in Pre(subs[j], path + [j])
    decreases |subs| - i
  {
    if subs[i] != Empty && x in Pre(subs[i], path + [i]) {
      j := i;
    } else {
      j := PreFromOf(subs, i + 1, path, x);
    }
  }

  /** Every value that can be looked up is visited under its key. */
  lemma {:induction false} LookupVisited(t: Tree, path: Hex, q: Hex, v: seq<byte>)
    requires At(t, q) && Lookup(t, q) == Some(v)
    ensures Visit(path + q, Leaf(v)) in Pre(t, path)
    decreases t
  {
    match t
    case Leaf(_) =>
      assert path + q == path;
    case Ext(k, c) =>
      DescendAt(k, c, q);
      LookupVisited(c, path + k, q[|k|..], v);
      assert path + k + q[|k|..] == path + q;
    case Branch(subs) =>
      LookupVisited(subs[q[0]], path + [q[0]], q[1..], v);
      assert path + [q[0]] + q[1..] == path + q;
      PreFromHas(subs, 0, q[0] as nat, path, Visit(path + q, Leaf(v)));
  }

  /** A visited leaf can be looked up under the rest of its path; the paths to other nodes are nibbles. */
  ghost predicate VisitOk(t: Tree, path: Hex, x: Visit) {
    && path <= x.path
    && (x.path == path ==> x == Visit(path, t))
    && var q := x.path[|path|..];
       if x.tree.Leaf? then At(t, q) && Lookup(t, q) == Some(x.tree.v) else Plain(q) && !t.Leaf?
  }

  lemma {:induction false} VisitedLookup(t: Tree, path: Hex, x: Visit)
    requires Minimal(t) && x in Pre(t, path)
    ensures VisitOk(t, path, x)
    decreases t
  {
    if x == Visit(path, t) {
      assert x.path[|path|..] == [];
    } else {
      match t
      case Ext(k, c) =>
        VisitedLookup(c, path + k, x);
        ExtVisit(k, c, path, x);
      case Branch(subs) =>
        var j := PreFromOf(subs, 0, path, x);
        VisitedLookup(subs[j], path + [j], x);
        BranchVisit(subs, j, path, x);
      case _ =>
    }
  }

  lemma ExtVisit(k: Hex, c: Tree, path: Hex, x: Visit)
    requires Canonical(Ext(k, c)) && VisitOk(c, path + k, x)
    ensures VisitOk(Ext(k, c), path, x)
  {
    var q := x.path[|path|..];
    var r := x.path[|path + k|..];
    assert q == k + r;
    if x.tree.Leaf? {
      assert q[|k|..] == r;
    }
  }

  lemma BranchVisit(subs: seq<Tree>, j: byte, path: Hex, x: Visit)
    requires Canonical(Branch(subs)) && j < 17 && subs[j] != Empty && VisitOk(subs[j], path + [j], x)
    ensures VisitOk(Branch(subs), path, x)
  {
    var q := x.path[|path|..];
    assert q == [j] + x.path[|path| + 1..];
    assert q[1..] == x.path[|path| + 1..];
  }

  /** In a whole trie the terminator marks the leaves. */
  lemma TermIsLeaf(t: Tree, x: Visit)
    requires Canonical(t) && x in Pre(t, [])
    ensures HasTerm(x.path) <==> x.tree.Leaf?
    ensures x.tree.Leaf? ==> TermKey(x.path) && Lookup(t, x.path) == Some(x.tree.v)
  {
    VisitedLookup(t, [], x);
    assert x.path[0..] == x.path;
  }

  /** The visited leaves are exactly the stored pairs. */
  lemma LeavesAreLookups(t: Tree, key: Hex, v: seq<byte>)
    requires Canonical(t) && TermKey(key)
    ensures Visit(key, Leaf(v)) in Pre(t, []) <==> Lookup(t, key) == Some(v)
  {
    if Lookup(t, key) == Some(v) {
      LookupVisited(t, [], key, v);
      assert [] + key == key;
    }
    if Visit(key, Leaf(v)) in Pre(t, []) {
      TermIsLeaf(t, Visit(key, Leaf(v)));
    }
  }
}
