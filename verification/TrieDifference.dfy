/**
 * The difference iterator of proton/trie/iterator.go: it walks two tries side by side, skips
 * subtrees whose hashes agree, and still reports every pair of b that is not in a, and no other.
 */
module TrieDifference {
  import opened Bytes
  import opened TrieEncoding
  import opened TrieTree
  import opened TrieNode
  import opened TrieLazy
  import opened TrieHasher
  import opened TrieVisit
  import opened TrieIterator
  import opened TrieEntries
  import TrieRun

  // ---- comparing two positions ----

  function CompareBytes(a: seq<byte>, b: seq<byte>): (c: int) {
    if a == b then 0 else if Less(a, b) then -1 else 1
  }

  function Blob(n: Node): (v: seq<byte>) {
    if n.Val? then n.v else []
  }

  /** compareNodes: by path, leaves first, then by hash, then by value. */
  function CompareNodes(pa: Hex, a: Frame, pb: Hex, b: Frame): (c: int) {
    if CompareBytes(pa, pb) != 0 then CompareBytes(pa, pb)
    else if HasTerm(pa) && !HasTerm(pb) then -1
    else if HasTerm(pb) && !HasTerm(pa) then 1
    else if CompareBytes(a.hash, b.hash) != 0 then CompareBytes(a.hash, b.hash)
    else if HasTerm(pa) && HasTerm(pb) then CompareBytes(Blob(a.node), Blob(b.node))
    else 0
  }

  /** The frame shows the visit: its node is loaded, and its hash, if any, is the tree's own. */
  ghost predicate Shows(w: World, db: Db, f: Frame, x: Visit) {
    (FrameOk(w, db, f, x.tree, true) || FrameOk(w, db, f, x.tree, false)) && (HasTerm(x.path) <==> x.tree.Leaf?)
  }

  lemma ShownLeaf(w: World, db: Db, f: Frame, x: Visit)
    requires Shows(w, db, f, x) && x.tree.Leaf?
    ensures f.hash == ZeroHash() && Blob(f.node) == x.tree.v
  {
    hide Canonical;
    hide Covers;
    hide Sound;
  }

  /** Equal positions have the same path and hash, and equal leaves are equal pairs; unequal ones are apart. */
  lemma CompareMeaning(w: World, da: Db, a: Frame, x: Visit, db: Db, b: Frame, y: Visit)
    requires Shows(w, da, a, x) && Shows(w, db, b, y)
    ensures
      var c := CompareNodes(x.path, a, y.path, b);
      && -1 <= c <= 1
      && (c == 0 ==> x.path == y.path && a.hash == b.hash && (x.tree.Leaf? || y.tree.Leaf? ==> x == y))
      && (c == -1 ==> Less(x.path, y.path) || (x.path == y.path && (x.tree.Leaf? ==> x != y)))
      && (c == 1 ==> Less(y.path, x.path) || (x.path == y.path && (y.tree.Leaf? ==> x != y)))
  {
    hide FrameOk;
    hide Less;
    LessTotal(x.path, y.path);
    if x.tree.Leaf? {
      ShownLeaf(w, da, a, x);
    }
    if y.tree.Leaf? {
      ShownLeaf(w, db, b, y);
    }
  }

  /** Agreeing hashes mean equal subtrees. */
  lemma SameHash(w: World, da: Db, a: Frame, x: Visit, db: Db, b: Frame, y: Visit)
    requires Shows(w, da, a, x) && Shows(w, db, b, y) && a.hash == b.hash && a.hash != ZeroHash()
    ensures x.tree == y.tree
  {
    ShownTree(w, da, a, x);
    ShownTree(w, db, b, y);
    hide Shows;
    HashInjective(w, x.tree, y.tree);
  }

  lemma ShownTree(w: World, db: Db, f: Frame, x: Visit)
    requires Shows(w, db, f, x) && f.hash != ZeroHash()
    ensures w.Valid() && Inner(x.tree) && Canonical(x.tree) && Covers(w, x.tree) && f.hash == NodeHash(w, x.tree)
  {
    hide Covers;
    hide Sound;
    hide Rep;
  }

  // ---- the two lists of visits ----

  /** Nothing that b still has to visit has been left behind by a. */
  ghost predicate Synced(all: seq<Visit>, left: seq<Visit>, other: seq<Visit>) {
    forall x :: x in other && x.tree.Leaf? && x in all ==> x in left
  }

  lemma AfterFirst(vs: seq<Visit>, x: Visit)
    requires Sorted(vs) && vs != [] && x in vs
    ensures x == vs[0] || (x in vs[1..] && Less(vs[0].path, x.path))
  {
    hide Less;
    var i :| 0 <= i < |vs| && vs[i] == x;
    if i > 0 {
      assert vs[1..][i - 1] == x;
    }
  }

  lemma DropA(all: seq<Visit>, a: seq<Visit>, b: seq<Visit>)
    requires Synced(all, a, b) && Sorted(b) && a != [] && b != []
    requires Less(a[0].path, b[0].path) || (a[0].path == b[0].path && (a[0].tree.Leaf? ==> a[0] != b[0]))
    ensures Synced(all, a[1..], b)
  {
    hide Less;
    forall x | x in b && x.tree.Leaf? && x in all
      ensures x in a[1..]
    {
      AfterFirst(b, x);
      LessTotal(a[0].path, x.path);
      LessTotal(b[0].path, x.path);
      if x != b[0] && Less(a[0].path, b[0].path) {
        LessTrans(a[0].path, b[0].path, x.path);
      }
      assert x != a[0];
    }
  }

  lemma DropBoth(all: seq<Visit>, a: seq<Visit>, b: seq<Visit>)
    requires Synced(all, a, b) && Sorted(b) && a != [] && b != [] && a[0].path == b[0].path
    ensures Synced(all, a[1..], b[1..])
  {
    hide Less;
    forall x | x in b[1..] && x.tree.Leaf? && x in all
      ensures x in a[1..]
    {
      var i :| 0 <= i < |b[1..]| && b[1..][i] == x;
      assert b[i + 1] == x;
      LessTotal(b[0].path, x.path);
    }
  }

  lemma SkipBoth(all: seq<Visit>, pre: seq<Visit>, a: seq<Visit>, b: seq<Visit>)
    requires Synced(all, pre + a, pre + b) && Sorted(pre + b)
    ensures Synced(all, a, b)
  {
    hide Less;
    forall x | x in b && x.tree.Leaf? && x in all
      ensures x in a
    {
      if x in pre {
        var i :| 0 <= i < |pre| && pre[i] == x;
        var j :| 0 <= j < |b| && b[j] == x;
        assert (pre + b)[i] == x && (pre + b)[|pre| + j] == x;
        LessTotal(x.path, x.path);
      }
    }
  }

  /** The first of b comes before the first of a, so it is not in a at all. */
  lemma OnlyB(all: seq<Visit>, a: seq<Visit>, b: seq<Visit>)
    requires Synced(all, a, b) && Sorted(a) && b != [] && b[0].tree.Leaf?
    requires a != [] ==> Less(b[0].path, a[0].path) || (a[0].path == b[0].path && a[0] != b[0])
    ensures b[0] !in all
  {
    hide Less;
    if b[0] in all {
      AfterFirst(a, b[0]);
      LessTotal(a[0].path, b[0].path);
    }
  }

  lemma Reported(all: seq<Visit>, a: seq<Visit>, b: seq<Visit>)
    requires Synced(all, a, b) && Sorted(a) && a != [] && b != []
    requires Less(b[0].path, a[0].path) || (a[0].path == b[0].path && (b[0].tree.Leaf? ==> a[0] != b[0]))
    ensures (b[0].tree.Leaf? ==> b[0] !in all) && Synced(all, a, b[1..])
  {
    hide Less;
    hide Sorted;
    if b[0].tree.Leaf? {
      OnlyB(all, a, b);
    }
  }

  /** Once a has come to its end, nothing left of b is in it. */
  lemma Exhausted(all: seq<Visit>, b: seq<Visit>)
    requires Synced(all, [], b) && b != []
    ensures (b[0].tree.Leaf? ==> b[0] !in all) && Synced(all, [], b[1..])
  {}

  lemma JoinAssoc(a: seq<Visit>, b: seq<Visit>, c: seq<Visit>)
    ensures a + (b + c) == a + b + c
  {}

  lemma SyncedNone(all: seq<Visit>, a: seq<Visit>)
    ensures Synced(all, a, [])
  {}

  // ---- the iterators side by side ----

  /** The current node and everything after it. */
  ghost function Left(it: NodeIterator): (vs: seq<Visit>)
    reads it
  {
    if it.stack != [] && |it.stack| == |it.trees| then [it.Current()] + it.Remaining() else it.Remaining()
  }

  /** The iterator stands on a node it has just reached. */
  ghost predicate Standing(it: NodeIterator)
    reads it
  {
    && it.Valid() && it.stack != [] && it.status.Running? && it.stack[|it.stack| - 1].index == -1
    && Suffix(Left(it), it.All())
  }

  /** Next where nothing can be missing: it fails at the end only. */
  method Step(it: NodeIterator, descend: bool) returns (ok: bool)
    requires it.Valid() && it.Whole()
    modifies it`stack, it`trees, it`path, it`status
    ensures it.Valid() && it.Whole()
    ensures
      if ok then Standing(it) && Left(it) == old(it.Goal(descend))
      else old(it.Goal(descend)) == [] && it.Remaining() == []
  {
    hide Stands;
    hide Fits;
    hide Rest;
    hide Pre;
    hide Suffix;
    hide Canonical;
    hide Backed;
    hide BackedFrames;
    hide Passed;
    hide LostAt;
    ghost var goal;
    ok, goal := it.Next(descend);
    if ok {
      assert goal == [goal[0]] + goal[1..];
    }
  }

  /** What is left splits into the current subtree and what comes after it. */
  lemma LeftSplit(it: NodeIterator)
    requires Standing(it)
    ensures Left(it) == Pre(it.Current().tree, it.path) + it.Goal(false)
    ensures Shows(it.w, it.db, it.stack[|it.stack| - 1], it.Current())
    ensures Left(it) != [] && Left(it)[0] == it.Current()
    ensures Sorted(Left(it)) && forall x :: x in Left(it) ==> x in it.All()
  {
    hide Stands;
    hide Fits;
    hide Rest;
    hide Pre;
    hide After;
    hide Canonical;
    hide FrameOk;
    hide Cut;
    hide Suffix;
    hide Sorted;
    var n := |it.stack| - 1;
    RestTop(it.stack, it.trees, it.path);
    FitsLength(it.w, it.db, it.stack, it.trees, it.path);
    PreUnfold(it.trees[n], it.path);
    ConsAssoc(it.Current(), After(it.trees[n], it.path, -1),
      Rest(it.stack[..n], it.trees[..n], Cut(it.path, it.stack[n].pathlen)));
    SortedAll(it.tree);
    SuffixSorted(Left(it), it.All());
    CurrentShows(it);
    SuffixMembers(Left(it), it.All());
  }

  lemma ConsAssoc(x: Visit, a: seq<Visit>, b: seq<Visit>)
    ensures [x] + (a + b) == [x] + a + b
  {}

  lemma SuffixMembers(a: seq<Visit>, b: seq<Visit>)
    requires Suffix(a, b)
    ensures forall x :: x in a ==> x in b
  {}

  lemma CurrentShows(it: NodeIterator)
    requires Standing(it)
    ensures HasTerm(it.Current().path) <==> it.Current().tree.Leaf?
  {
    hide Stands;
    hide Fits;
    hide Rest;
    hide Pre;
    hide Canonical;
    var all := it.All();
    assert Left(it)[0] == it.Current();
    assert Left(it)[0] == all[|all| - |Left(it)|];
    TermIsLeaf(it.tree, it.Current());
  }

  datatype Verdict = Again | Found | Ended

  class DifferenceIterator {
    const a: NodeIterator
    const b: NodeIterator
    var eof: bool
    var count: nat

    ghost function LeftA(): (vs: seq<Visit>)
      reads this, a
    {
      if eof then [] else Left(a)
    }

    ghost predicate Base()
      reads this, a, b
    {
      a != b && a.w == b.w && a.Valid() && b.Valid() && a.Whole() && b.Whole()
    }

    ghost predicate Valid()
      reads this, a, b
    {
      && Base() && (!eof ==> Standing(a))
      && Synced(a.All(), LeftA(), b.Remaining())
    }

    constructor (a: NodeIterator, b: NodeIterator)
      ensures this.a == a && this.b == b && !eof && count == 0
    {
      this.a, this.b, eof, count := a, b, false, 0;
    }

    /** One round of the loop of Next: a match is found to be missing, or b ends, or the search goes on. */
    method Round() returns (v: Verdict, ghost more: seq<Visit>)
      requires Base() && !eof && Standing(a) && Standing(b) && Synced(a.All(), Left(a), Left(b))
      modifies `eof, `count, a`stack, a`trees, a`path, a`status, b`stack, b`trees, b`path, b`status
      ensures Base() && (!eof ==> Standing(a))
      ensures forall x :: x in more && x.tree.Leaf? ==> x in a.All()
      ensures v == Again ==> !eof && Standing(b) && Synced(a.All(), Left(a), Left(b)) && old(Left(b)) == more + Left(b)
      ensures v == Again ==> |b.Remaining()| + |a.Remaining()| < old(|b.Remaining()| + |a.Remaining()|)
      ensures v == Found ==> Standing(b) && old(Left(b)) == more + Left(b) && Synced(a.All(), LeftA(), b.Remaining())
      ensures v == Found && b.Current().tree.Leaf? ==> b.Current() !in a.All()
      ensures v == Ended ==> old(Left(b)) == more && b.Remaining() == []
    {
      hide Stands;
      hide Fits;
      hide Rest;
      hide Suffix;
      hide Canonical;
      hide Backed;
      hide BackedFrames;
      hide Pre;
      hide Less;
      hide Sorted;
      hide Synced;
      hide Shows;
      hide CompareNodes;
      LeftSplit(a);
      LeftSplit(b);
      ghost var la, lb := Left(a), Left(b);
      var c := CompareNodes(a.path, a.stack[|a.stack| - 1], b.path, b.stack[|b.stack| - 1]);
      CompareMeaning(a.w, a.db, a.stack[|a.stack| - 1], a.Current(), b.db, b.stack[|b.stack| - 1], b.Current());
      more := [];
      assert more + lb == lb;
      if c == 1 {
        Reported(a.All(), la, lb);
        v := Found;
      } else if c == -1 {
        DropA(a.All(), la, lb);
        assert la[1..] == a.Remaining();
        var aOk := Step(a, true);
        if aOk {
          count := count + 1;
          v := Again;
        } else {
          eof := true;
          Exhausted(a.All(), lb);
          v := Found;
        }
      } else {
        var aOk, bOk;
        aOk, bOk, more := StepBoth();
        count := count + (if bOk then 1 else 0) + if aOk then 1 else 0;
        if bOk && !aOk {
          eof := true;
          LeftSplit(b);
          Exhausted(a.All(), Left(b));
        }
        v := if !bOk then Ended else if aOk then Again else Found;
      }
    }

    /**
     * Next: on to the next node of b that is not matched in a. The leaves of b passed over are all
     * in a; a leaf stopped at is not.
     */
    method Next() returns (ok: bool, ghost skipped: seq<Visit>)
      requires Valid()
      modifies `eof, `count, a`stack, a`trees, a`path, a`status, b`stack, b`trees, b`path, b`status
      ensures Valid()
      ensures forall x :: x in skipped && x.tree.Leaf? ==> x in a.All()
      ensures !ok ==> old(b.Remaining()) == skipped && b.Remaining() == []
      ensures ok ==> Standing(b) && old(b.Remaining()) == skipped + Left(b)
      ensures ok && b.Current().tree.Leaf? ==> b.Current() !in a.All()
    {
      hide Stands;
      hide Fits;
      hide Rest;
      hide Suffix;
      hide Canonical;
      hide Backed;
      hide BackedFrames;
      hide Pre;
      hide Synced;
      hide Sorted;
      hide Shows;
      skipped := [];
      ok := Step(b, true);
      if !ok {
        return;
      }
      count := count + 1;
      LeftSplit(b);
      ghost var r0 := Left(b);
      if eof {
        Exhausted(a.All(), r0);
        return;
      }
      var v := Again;
      while v == Again
        invariant Base() && (!eof ==> Standing(a))
        invariant forall x :: x in skipped && x.tree.Leaf? ==> x in a.All()
        invariant v == Again ==> !eof && Standing(b) && Synced(a.All(), Left(a), Left(b)) && r0 == skipped + Left(b)
        invariant v == Found ==> Standing(b) && r0 == skipped + Left(b) && Synced(a.All(), LeftA(), b.Remaining())
        invariant v == Found && b.Current().tree.Leaf? ==> b.Current() !in a.All()
        invariant v == Ended ==> r0 == skipped && b.Remaining() == []
        decreases if v == Again then 1 else 0, |b.Remaining()| + |a.Remaining()|
      {
        ghost var more;
        v, more := Round();
        JoinAssoc(skipped, more, Left(b));
        skipped := skipped + more;
      }
      if v == Ended {
        SyncedNone(a.All(), LeftA());
      }
      ok := v == Found;
    }

    /** Both stand on equal nodes: past the subtree if it has a hash, else on to the next node. */
    method StepBoth() returns (aOk: bool, bOk: bool, ghost skipped: seq<Visit>)
      requires Base() && Standing(a) && Standing(b) && Synced(a.All(), Left(a), Left(b))
      requires CompareNodes(a.path, a.stack[|a.stack| - 1], b.path, b.stack[|b.stack| - 1]) == 0
      modifies a`stack, a`trees, a`path, a`status, b`stack, b`trees, b`path, b`status
      ensures a.Valid() && b.Valid() && a.Whole() && b.Whole()
      ensures bOk ==> Standing(b) && old(Left(b)) == skipped + Left(b) && |b.Remaining()| < old(|b.Remaining()|)
      ensures !bOk ==> old(Left(b)) == skipped && b.Remaining() == [] && Standing(a)
      ensures bOk ==> if aOk then Standing(a) && Synced(a.All(), Left(a), Left(b)) else Synced(a.All(), [], Left(b))
      ensures forall x :: x in skipped && x.tree.Leaf? ==> x in a.All()
      ensures |a.Remaining()| <= old(|a.Remaining()|)
    {
      hide Stands;
      hide Fits;
      hide Rest;
      hide Suffix;
      hide Canonical;
      hide Backed;
      hide BackedFrames;
      hide Pre;
      hide Less;
      hide Sorted;
      hide Synced;
      hide Shows;
      hide CompareNodes;
      LeftSplit(a);
      LeftSplit(b);
      var fa, fb := a.stack[|a.stack| - 1], b.stack[|b.stack| - 1];
      ghost var la, lb := Left(a), Left(b);
      CompareMeaning(a.w, a.db, fa, a.Current(), b.db, fb, b.Current());
      var descend := fa.hash == ZeroHash();
      aOk := false;
      if descend {
        skipped := [b.Current()];
        DropBoth(a.All(), la, lb);
        assert la[1..] == a.Remaining() && lb[1..] == b.Remaining();
      } else {
        SameHash(a.w, a.db, fa, a.Current(), b.db, fb, b.Current());
        skipped := Pre(b.Current().tree, b.path);
        SkipBoth(a.All(), skipped, a.Goal(false), b.Goal(false));
      }
      bOk := Step(b, descend);
      if bOk {
        aOk := Step(a, descend);
      }
    }
  }

  /** NewDifferenceIterator: a moves to its first node. */
  method NewDifferenceIterator(a: NodeIterator, b: NodeIterator) returns (d: DifferenceIterator)
    requires a != b && a.w == b.w && a.Valid() && b.Valid() && a.Whole() && b.Whole() && a.Remaining() == a.All()
    modifies a`stack, a`trees, a`path, a`status
    ensures fresh(d) && d.Valid() && d.a == a && d.b == b && !d.eof
  {
    hide Stands;
    hide Fits;
    hide Rest;
    hide Suffix;
    hide Canonical;
    hide Backed;
    hide BackedFrames;
    var _ := Step(a, true);
    d := new DifferenceIterator(a, b);
  }

  // ---- whole runs ----

  /** The leaves among the visits that are not in the other list. */
  ghost function Only(vs: seq<Visit>, all: seq<Visit>): (ls: seq<Visit>) {
    if vs == [] then [] else (if vs[0].tree.Leaf? && vs[0] !in all then [vs[0]] else []) + Only(vs[1..], all)
  }

  lemma {:induction false} OnlyConcat(a: seq<Visit>, b: seq<Visit>, all: seq<Visit>)
    ensures Only(a + b, all) == Only(a, all) + Only(b, all)
  {
    if a == [] {
      assert a + b == b;
    } else {
      OnlyConcat(a[1..], b, all);
      assert (a + b)[1..] == a[1..] + b;
      var head := if a[0].tree.Leaf? && a[0] !in all then [a[0]] else [];
      JoinAssoc(head, Only(a[1..], all), Only(b, all));
    }
  }

  lemma {:induction false} OnlyNone(vs: seq<Visit>, all: seq<Visit>)
    requires forall x :: x in vs && x.tree.Leaf? ==> x in all
    ensures Only(vs, all) == []
  {
    if vs != [] {
      OnlyNone(vs[1..], all);
    }
  }

  lemma {:induction false} OnlyMembers(vs: seq<Visit>, all: seq<Visit>, x: Visit)
    ensures x in Only(vs, all) <==> x in vs && x.tree.Leaf? && x !in all
  {
    if vs != [] {
      OnlyMembers(vs[1..], all, x);
    }
  }

  lemma {:induction false} OnlySorted(vs: seq<Visit>, all: seq<Visit>)
    requires Sorted(vs)
    ensures Sorted(Only(vs, all))
  {
    hide Less;
    if vs != [] {
      OnlySorted(vs[1..], all);
      var head := if vs[0].tree.Leaf? && vs[0] !in all then [vs[0]] else [];
      forall x, y | x in head && y in Only(vs[1..], all)
        ensures Less(x.path, y.path)
      {
        OnlyMembers(vs[1..], all, y);
        var j :| 0 <= j < |vs[1..]| && vs[1..][j] == y;
        assert vs[j + 1] == y;
      }
      SortedJoin(head, Only(vs[1..], all));
    }
  }

  /** Exactly the pairs of mb that are not pairs of ma. */
  ghost predicate PairsOnlyIn(ps: seq<Pair>, mb: TrieRun.Map, ma: TrieRun.Map) {
    forall k, v :: (k, v) in ps <==> k in mb && mb[k] == v && !(k in ma && ma[k] == v)
  }

  lemma OnlyArePairs(ta: Tree, ma: TrieRun.Map, tb: Tree, mb: TrieRun.Map, ps: seq<Pair>)
    requires TrieRun.Represents(ta, ma) && TrieRun.Represents(tb, mb) && Only(Pre(tb, []), Pre(ta, [])) == AsVisits(ps)
    ensures InOrder(ps) && PairsOnlyIn(ps, mb, ma)
  {
    hide Less;
    hide Pre;
    hide Canonical;
    hide Lookup;
    hide TrieRun.Represents;
    hide KeybytesToHex;
    hide Only;
    CanonicalOf(ta, ma);
    CanonicalOf(tb, mb);
    SortedAll(tb);
    OnlySorted(Pre(tb, []), Pre(ta, []));
    forall i, j | 0 <= i < j < |ps|
      ensures Less(KeybytesToHex(ps[i].0), KeybytesToHex(ps[j].0))
    {
      assert AsVisits(ps)[i].path == KeybytesToHex(ps[i].0) && AsVisits(ps)[j].path == KeybytesToHex(ps[j].0);
    }
    forall k, v
      ensures (k, v) in ps <==> k in mb && mb[k] == v && !(k in ma && ma[k] == v)
    {
      PairVisit(ps, k, v);
      OnlyMembers(Pre(tb, []), Pre(ta, []), Visit(KeybytesToHex(k), Leaf(v)));
      LeavesAreLookups(ta, KeybytesToHex(k), v);
      LeavesAreLookups(tb, KeybytesToHex(k), v);
      TrieRun.LookupKey(ta, ma, k);
      TrieRun.LookupKey(tb, mb, k);
    }
  }

  lemma FirstPassed(all: seq<Visit>, vs: seq<Visit>, key: Hex)
    requires Passed(all, vs, key) && |vs| < |all|
    ensures Less(all[0].path, key)
  {}

  /** Below the empty key there is nothing to pass over. */
  lemma PassedFromStart(all: seq<Visit>, vs: seq<Visit>)
    requires Passed(all, vs, Unpack([]))
    ensures vs == all
  {
    if |vs| < |all| {
      FirstPassed(all, vs, Unpack([]));
    }
  }

  /** One reported step: what was passed over adds nothing, the node itself adds its pair if it is a leaf. */
  lemma OnlyStep(seen: seq<Visit>, skipped: seq<Visit>, x: Visit, all: seq<Visit>)
    requires forall y :: y in skipped && y.tree.Leaf? ==> y in all
    requires x.tree.Leaf? ==> x !in all
    ensures Only(seen + skipped + [x], all) == Only(seen, all) + if x.tree.Leaf? then [x] else []
  {
    OnlyConcat(seen + skipped, [x], all);
    OnlyConcat(seen, skipped, all);
    OnlyNone(skipped, all);
    assert Only([x], all) == if x.tree.Leaf? then [x] else [];
  }

  lemma OnlyEnd(seen: seq<Visit>, skipped: seq<Visit>, all: seq<Visit>)
    requires forall y :: y in skipped && y.tree.Leaf? ==> y in all
    ensures Only(seen + skipped, all) == Only(seen, all)
  {
    OnlyConcat(seen, skipped, all);
    OnlyNone(skipped, all);
  }

  lemma StepSplit(seen: seq<Visit>, skipped: seq<Visit>, x: Visit, rest: seq<Visit>)
    ensures seen + (skipped + ([x] + rest)) == seen + skipped + [x] + rest
  {}

  lemma StepShorter(skipped: seq<Visit>, x: Visit, rest: seq<Visit>)
    ensures |rest| < |skipped + ([x] + rest)|
  {}

  /** The key and value read off a node the iterator shows. */
  lemma ShownPair(w: World, db: Db, t: Tree, m: TrieRun.Map, f: Frame, left: seq<Visit>)
    requires TrieRun.Represents(t, m) && Suffix(left, Pre(t, [])) && left != [] && Shows(w, db, f, left[0])
    ensures HasTerm(left[0].path) <==> left[0].tree.Leaf?
    ensures HasTerm(left[0].path) ==> HexKey(left[0].path) && |left[0].path| % 2 == 1
    ensures HasTerm(left[0].path) ==> left[0] == Visit(KeybytesToHex(HexToKeybytes(left[0].path)), Leaf(Blob(f.node)))
  {
    hide *;
    CanonicalOf(t, m);
    LeafVisit(t, left);
    if left[0].tree.Leaf? {
      ShownLeaf(w, db, f, left[0]);
    }
  }

  lemma LeafPair(it: NodeIterator, m: TrieRun.Map)
    requires Standing(it) && TrieRun.Represents(it.tree, m)
    ensures Left(it) == [it.Current()] + it.Remaining()
    ensures HasTerm(it.path) <==> it.Current().tree.Leaf?
    ensures HasTerm(it.path) ==> HexKey(it.path) && |it.path| % 2 == 1
    ensures HasTerm(it.path) ==>
      it.Current() == Visit(KeybytesToHex(HexToKeybytes(it.path)), Leaf(Blob(it.stack[|it.stack| - 1].node)))
  {
    hide Stands;
    hide Fits;
    hide Rest;
    hide Suffix;
    hide Canonical;
    hide Pre;
    hide TrieRun.Represents;
    hide ByteKeys;
    hide KeybytesToHex;
    hide HexToKeybytes;
    hide HasTerm;
    hide HexKey;
    hide Shows;
    hide Sorted;
    hide Less;
    hide NodeIterator.Goal;
    hide NodeIterator.Source;
    hide Blob;
    LeftSplit(it);
    ShownPair(it.w, it.db, it.tree, m, it.stack[|it.stack| - 1], Left(it));
  }

  lemma AppendVisit(ps: seq<Pair>, k: TrieRun.Key, v: TrieRun.Value, x: Visit)
    requires x == Visit(KeybytesToHex(k), Leaf(v))
    ensures AsVisits(ps + [(k, v)]) == AsVisits(ps) + [x]
  {
    hide KeybytesToHex;
  }

  /** An iterator over a trie, from its start. */
  method Open(trie: TrieRun.Trie) returns (it: NodeIterator)
    requires trie.Valid() && Backed(trie.w, trie.db, trie.root, trie.tree, true)
    modifies trie`root, trie`db
    ensures trie.Valid() && trie.db == old(trie.db) && Backed(trie.w, trie.db, trie.root, trie.tree, true)
    ensures fresh(it) && it.tree == trie.tree && it.w == trie.w && it.Remaining() == it.All() && it.Valid()
    ensures it.Whole()
  {
    hide Stands;
    hide Fits;
    hide Rest;
    hide Suffix;
    hide Canonical;
    hide Backed;
    hide BackedFrames;
    hide Pre;
    hide Passed;
    hide LostAt;
    hide Less;
    it := NewNodeIterator(trie, []);
    PassedFromStart(it.All(), it.Remaining());
  }

  /** Running the difference iterator, over tries that may be in memory, committed or both. */
  method Difference(a: NodeIterator, b: NodeIterator, ghost ma: TrieRun.Map, ghost mb: TrieRun.Map)
    returns (ps: seq<Pair>)
    requires a != b && a.w == b.w && a.Remaining() == a.All() && b.Remaining() == b.All()
    requires a.Valid() && b.Valid() && a.Whole() && b.Whole()
    requires TrieRun.Represents(a.tree, ma) && TrieRun.Represents(b.tree, mb)
    modifies a`stack, a`trees, a`path, a`status, b`stack, b`trees, b`path, b`status
    ensures InOrder(ps) && PairsOnlyIn(ps, mb, ma)
  {
    hide Stands;
    hide Fits;
    hide Rest;
    hide Suffix;
    hide Canonical;
    hide Backed;
    hide BackedFrames;
    hide Pre;
    hide Synced;
    hide Only;
    hide TrieRun.Represents;
    hide InOrder;
    hide PairsOnlyIn;
    hide AsVisits;
    hide HexToKeybytes;
    hide KeybytesToHex;
    hide HasTerm;
    hide HexKey;
    hide Left;
    var d := NewDifferenceIterator(a, b);
    ghost var seen := [];
    assert seen + b.All() == b.All();
    ps := [];
    OnlyNone([], a.All());
    var more := true;
    while more
      invariant d.Valid() && d.a == a && d.b == b
      invariant b.All() == seen + b.Remaining() && AsVisits(ps) == Only(seen, a.All())
      invariant !more ==> b.Remaining() == []
      decreases if more then 1 else 0, |b.Remaining()|
    {
      ghost var skipped;
      more, skipped := d.Next();
      if more {
        OnlyStep(seen, skipped, b.Current(), a.All());
        LeafPair(b, mb);
        StepSplit(seen, skipped, b.Current(), b.Remaining());
        StepShorter(skipped, b.Current(), b.Remaining());
        seen := seen + skipped + [b.Current()];
        if HasTerm(b.path) {
          var key, value := HexToKeybytes(b.path), Blob(b.stack[|b.stack| - 1].node);
          AppendVisit(ps, key, value, b.Current());
          ps := ps + [(key, value)];
        }
      } else {
        OnlyEnd(seen, skipped, a.All());
        seen := seen + skipped;
      }
    }
    assert seen + [] == seen;
    OnlyArePairs(a.tree, ma, b.tree, mb, ps);
  }

  /** The pairs of the second trie that are not in the first. */
  method DifferenceOf(ta: TrieRun.Trie, tb: TrieRun.Trie, ghost ma: TrieRun.Map, ghost mb: TrieRun.Map)
    returns (ps: seq<Pair>)
    requires ta.w == tb.w && TrieRun.Represents(ta.tree, ma) && TrieRun.Represents(tb.tree, mb)
    requires ta.Valid() && Backed(ta.w, ta.db, ta.root, ta.tree, true)
    requires tb.Valid() && Backed(tb.w, tb.db, tb.root, tb.tree, true)
    modifies ta`root, ta`db, tb`root, tb`db
    ensures InOrder(ps) && PairsOnlyIn(ps, mb, ma)
  {
    hide Stands;
    hide Fits;
    hide Rest;
    hide Suffix;
    hide Canonical;
    hide Backed;
    hide BackedFrames;
    hide Pre;
    hide InOrder;
    hide PairsOnlyIn;
    hide TrieRun.Represents;
    var a := Open(ta);
    var b := Open(tb);
    ps := Difference(a, b, ma, mb);
  }

  /** After any two runs: the pairs of the second map that are not pairs of the first. */
  method DifferenceAfter(w: World, opsA: seq<TrieRun.Op>, opsB: seq<TrieRun.Op>) returns (ps: seq<Pair>)
    requires TrieRun.RunCovered(w, opsA) && TrieRun.RunCovered(w, opsB)
    ensures InOrder(ps) && PairsOnlyIn(ps, TrieRun.RunMap(opsB), TrieRun.RunMap(opsA))
  {
    hide Backed;
    hide InOrder;
    hide PairsOnlyIn;
    hide TrieRun.Represents;
    var ta := TrieRun.RunTrie(w, opsA);
    var tb := TrieRun.RunTrie(w, opsB);
    TrieRun.RunRepresents(opsA);
    TrieRun.RunRepresents(opsB);
    ps := DifferenceOf(ta, tb, TrieRun.RunMap(opsA), TrieRun.RunMap(opsB));
  }
}
