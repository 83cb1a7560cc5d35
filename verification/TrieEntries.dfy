/**
 * Whole iterations (proton/trie/iterator.go): if the database has the parts of a trie that are not
 * in memory, the key-value iterator returns exactly the stored pairs from the start key on, each
 * once and in key order.
 */
module TrieEntries {
  import opened Bytes
  import opened TrieEncoding
  import opened TrieTree
  import opened TrieNode
  import opened TrieLazy
  import opened TrieHasher
  import opened TrieVisit
  import opened TrieIterator
  import TrieRun

  type Pair = (TrieRun.Key, TrieRun.Value)

  // ---- leaves ----

  function AsVisits(ps: seq<Pair>): (vs: seq<Visit>)
    ensures |vs| == |ps| && forall i :: 0 <= i < |ps| ==> vs[i] == Visit(KeybytesToHex(ps[i].0), Leaf(ps[i].1))
  {
    seq(|ps|, i requires 0 <= i < |ps| => Visit(KeybytesToHex(ps[i].0), Leaf(ps[i].1)))
  }

  lemma {:induction false} LeavesSorted(vs: seq<Visit>)
    requires Sorted(vs)
    ensures Sorted(Leaves(vs))
  {
    hide Less;
    if vs != [] {
      LeavesSorted(vs[1..]);
      var head := if vs[0].tree.Leaf? then [vs[0]] else [];
      forall x, y | x in head && y in Leaves(vs[1..])
        ensures Less(x.path, y.path)
      {
        LeavesMembers(vs[1..], y);
        var j :| 0 <= j < |vs[1..]| && vs[1..][j] == y;
        assert vs[j + 1] == y;
      }
      SortedJoin(head, Leaves(vs[1..]));
    }
  }

  ghost predicate InOrder(ps: seq<Pair>) {
    forall i, j :: 0 <= i < j < |ps| ==> Less(KeybytesToHex(ps[i].0), KeybytesToHex(ps[j].0))
  }

  /** The pairs of the map whose terminated path is not below the start. */
  ghost predicate PairsFrom(ps: seq<Pair>, m: TrieRun.Map, start: Hex) {
    forall k, v :: (k, v) in ps <==> k in m && m[k] == v && !Less(KeybytesToHex(k), start)
  }

  /** The leaves among the visits from the start on are the map's pairs from the start on. */
  lemma LeavesArePairs(t: Tree, m: TrieRun.Map, vs: seq<Visit>, ps: seq<Pair>, start: Hex)
    requires TrieRun.Represents(t, m) && Passed(Pre(t, []), vs, start) && Leaves(vs) == AsVisits(ps)
    requires forall x :: x in vs ==> !Less(x.path, start)
    ensures InOrder(ps) && PairsFrom(ps, m, start)
  {
    hide Less;
    hide Pre;
    hide Canonical;
    hide Lookup;
    hide TrieRun.Represents;
    hide KeybytesToHex;
    hide Leaves;
    CanonicalOf(t, m);
    SortedAll(t);
    SuffixSorted(vs, Pre(t, []));
    LeavesSorted(vs);
    forall i, j | 0 <= i < j < |ps|
      ensures Less(KeybytesToHex(ps[i].0), KeybytesToHex(ps[j].0))
    {
      assert AsVisits(ps)[i].path == KeybytesToHex(ps[i].0) && AsVisits(ps)[j].path == KeybytesToHex(ps[j].0);
    }
    forall k, v
      ensures (k, v) in ps <==> k in m && m[k] == v && !Less(KeybytesToHex(k), start)
    {
      var x := Visit(KeybytesToHex(k), Leaf(v));
      PairVisit(ps, k, v);
      LeavesMembers(vs, x);
      PassedMembers(Pre(t, []), vs, start, x);
      LeavesAreLookups(t, KeybytesToHex(k), v);
      TrieRun.LookupKey(t, m, k);
    }
  }

  lemma CanonicalOf(t: Tree, m: TrieRun.Map)
    requires TrieRun.Represents(t, m)
    ensures Canonical(t) && ByteKeys(t)
  {}

  lemma SuffixSorted(a: seq<Visit>, b: seq<Visit>)
    requires Suffix(a, b) && Sorted(b)
    ensures Sorted(a)
  {
    hide Less;
    forall i, j | 0 <= i < j < |a|
      ensures Less(a[i].path, a[j].path)
    {
      assert a[i] == b[|b| - |a| + i] && a[j] == b[|b| - |a| + j];
    }
  }

  lemma PairVisit(ps: seq<Pair>, k: TrieRun.Key, v: TrieRun.Value)
    ensures (k, v) in ps <==> Visit(KeybytesToHex(k), Leaf(v)) in AsVisits(ps)
  {
    hide KeybytesToHex;
    var vs := AsVisits(ps);
    if (k, v) in ps {
      var i :| 0 <= i < |ps| && ps[i] == (k, v);
      assert vs[i] == Visit(KeybytesToHex(k), Leaf(v));
    }
    if Visit(KeybytesToHex(k), Leaf(v)) in vs {
      var i :| 0 <= i < |vs| && vs[i] == Visit(KeybytesToHex(k), Leaf(v));
      KeybytesInjective(ps[i].0, k);
      assert ps[i] == (k, v);
    }
  }

  lemma PassedMembers(all: seq<Visit>, vs: seq<Visit>, start: Hex, x: Visit)
    requires Passed(all, vs, start) && forall y :: y in vs ==> !Less(y.path, start)
    ensures x in vs <==> x in all && !Less(x.path, start)
  {
    hide Less;
    if x in all && !Less(x.path, start) {
      var i :| 0 <= i < |all| && all[i] == x;
      assert i >= |all| - |vs|;
      assert vs[i - (|all| - |vs|)] == x;
    }
  }

  lemma AppendPair(all: seq<Visit>, ps: seq<Pair>, ls: seq<Visit>, k: TrieRun.Key, v: TrieRun.Value)
    requires all == AsVisits(ps) + ls && ls != [] && ls[0] == Visit(KeybytesToHex(k), Leaf(v))
    ensures all == AsVisits(ps + [(k, v)]) + ls[1..]
  {
    hide KeybytesToHex;
    assert AsVisits(ps + [(k, v)]) == AsVisits(ps) + [ls[0]];
  }

  lemma NoPairs(vs: seq<Visit>)
    ensures vs == AsVisits([]) + vs
  {}

  lemma NoMore(ps: seq<Pair>)
    ensures AsVisits(ps) + [] == AsVisits(ps)
  {}

  /**
   * Iterating a trie from a start key, whatever is in memory and whatever has been committed: the
   * database only has to have the parts that are not in memory.
   */
  method Entries(trie: TrieRun.Trie, start: seq<byte>, ghost m: TrieRun.Map) returns (ps: seq<Pair>)
    requires trie.Valid() && Backed(trie.w, trie.db, trie.root, trie.tree, true) && TrieRun.Represents(trie.tree, m)
    modifies trie`root, trie`db
    ensures trie.Valid() && trie.db == old(trie.db) && Backed(trie.w, trie.db, trie.root, trie.tree, true)
    ensures InOrder(ps) && PairsFrom(ps, m, Unpack(start))
  {
    hide Less;
    hide Pre;
    hide Canonical;
    hide Stands;
    hide Fits;
    hide Rest;
    hide Backed;
    hide BackedFrames;
    hide TrieRun.Represents;
    hide TrieRun.RootHash;
    hide KeybytesToHex;
    hide Unpack;
    hide ByteKeys;
    hide Passed;
    hide LostAt;
    hide Leaves;
    hide Suffix;
    hide AsVisits;
    hide InOrder;
    hide PairsFrom;
    CanonicalOf(trie.tree, m);
    var it := NewNodeIterator(trie, start);
    ghost var r0 := it.Remaining();
    var e := new Iterator(it);
    ps := [];
    var more := true;
    NoPairs(Leaves(r0));
    while more
      invariant it.Valid() && it.tree == trie.tree && it.Whole()
      invariant trie.Valid() && trie.db == old(trie.db) && Backed(trie.w, trie.db, trie.root, trie.tree, true)
      invariant Leaves(r0) == AsVisits(ps) + Leaves(it.Remaining())
      invariant !more ==> Leaves(it.Remaining()) == []
      decreases if more then 1 else 0, |Leaves(it.Remaining())|
    {
      ghost var ls := Leaves(it.Remaining());
      more := e.Next();
      if more {
        AppendPair(Leaves(r0), ps, ls, e.key, e.value);
        ps := ps + [(e.key, e.value)];
      }
    }
    NoMore(ps);
    LeavesArePairs(trie.tree, m, r0, ps, Unpack(start));
  }

  /** After any run, iterating yields the map's pairs from the start key on. */
  method EntriesAfter(w: World, ops: seq<TrieRun.Op>, start: seq<byte>) returns (ps: seq<Pair>)
    requires TrieRun.RunCovered(w, ops)
    ensures InOrder(ps) && PairsFrom(ps, TrieRun.RunMap(ops), Unpack(start))
  {
    hide Backed;
    hide InOrder;
    hide PairsFrom;
    hide Unpack;
    var trie := TrieRun.RunTrie(w, ops);
    TrieRun.RunRepresents(ops);
    ps := Entries(trie, start, TrieRun.RunMap(ops));
  }
}
