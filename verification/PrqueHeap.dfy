/**
 * The heap operations of Go's container/heap over the block-based stack (common/prque/sstack.go), as
 * the priority queues use them: Push, Pop and Remove, made of the stack's own Push, Pop, Less and Swap.
 */
module PrqueHeap {
  import opened SStack

  // ---- bags ----

  function Values<D>(s: seq<Item<D>>): (vs: seq<D>)
    ensures |vs| == |s| && forall i :: 0 <= i < |s| ==> vs[i] == s[i].value
  {
    seq(|s|, i requires 0 <= i < |s| => s[i].value)
  }

  /** The values in a bag. */
  ghost function Bag<D>(s: seq<Item<D>>): (m: multiset<D>) {
    multiset(Values(s))
  }

  lemma BagNone<D>()
    ensures Bag<D>([]) == multiset{}
  {}

  lemma BagPush<D>(s: seq<Item<D>>, x: Item<D>)
    ensures Bag(s + [x]) == Bag(s) + multiset{x.value}
  {
    assert Values(s + [x]) == Values(s) + [x.value];
  }

  lemma BagMember<D(!new)>(s: seq<Item<D>>, d: D)
    ensures d in Bag(s) <==> !Absent(s, d)
    ensures forall i :: 0 <= i < |s| ==> s[i].value in Bag(s)
  {
    var vs := Values(s);
    assert d in Bag(s) <==> d in vs;
    forall i | 0 <= i < |s|
      ensures s[i].value in Bag(s)
    {
      assert vs[i] in vs;
    }
    if !Absent(s, d) {
      var i :| 0 <= i < |s| && s[i].value == d;
    }
  }

  // ---- rearranging ----

  /** Reported indices change for the values held only. */
  ghost predicate Elsewhere<D(!new)>(ix: map<D, int>, ix': map<D, int>, items: seq<Item<D>>) {
    forall d :: Absent(items, d) ==> (d in ix' <==> d in ix) && (d in ix ==> ix'[d] == ix[d])
  }

  /** The same items in another order, with their reported indices kept up. */
  ghost predicate Shuffled<D(!new)>(side: Side, s: seq<Item<D>>, ix: map<D, int>, s': seq<Item<D>>, ix': map<D, int>) {
    && |s'| == |s| && multiset(s') == multiset(s) && Bag(s') == Bag(s)
    && Elsewhere(ix, ix', s) && (side.Silent? ==> ix' == ix) && (Reported(side, s, ix) ==> Reported(side, s', ix'))
  }

  lemma ShuffledSelf<D(!new)>(side: Side, s: seq<Item<D>>, ix: map<D, int>)
    ensures Shuffled(side, s, ix, s, ix)
  {}

  lemma SameAbsent<D(!new)>(s: seq<Item<D>>, s': seq<Item<D>>)
    requires Bag(s') == Bag(s)
    ensures forall d :: Absent(s', d) <==> Absent(s, d)
  {
    hide Absent;
    hide Bag;
    forall d
      ensures Absent(s', d) <==> Absent(s, d)
    {
      BagMember(s, d);
      BagMember(s', d);
    }
  }

  lemma ShuffledTrans<D(!new)>(side: Side, a: seq<Item<D>>, ia: map<D, int>, b: seq<Item<D>>, ib: map<D, int>,
                               c: seq<Item<D>>, ic: map<D, int>)
    requires Shuffled(side, a, ia, b, ib) && Shuffled(side, b, ib, c, ic)
    ensures Shuffled(side, a, ia, c, ic)
  {
    hide Absent;
    hide Bag;
    hide Reported;
    SameAbsent(a, b);
  }

  lemma ShuffledSwap<D(!new)>(side: Side, s: seq<Item<D>>, ix: map<D, int>, i: nat, j: nat)
    requires i < |s| && j < |s|
    ensures Shuffled(side, s, ix, Exchanged(s, i, j), Noted(side, Noted(side, ix, s[j].value, i), s[i].value, j))
  {
    var r := Exchanged(s, i, j);
    assert Values(r) == Values(s)[i := s[j].value][j := s[i].value];
    if Reported(side, s, ix) {
      ReportSwap(side, s, ix, i, j);
    }
  }

  lemma ShuffledMembers<D(!new)>(side: Side, s: seq<Item<D>>, ix: map<D, int>, s': seq<Item<D>>, ix': map<D, int>)
    requires Shuffled(side, s, ix, s', ix')
    ensures forall x :: x in s' <==> x in s
  {
    forall x
      ensures x in s' <==> x in s
    {
      assert x in s' <==> x in multiset(s');
      assert x in s <==> x in multiset(s);
    }
  }

  // ---- the order ----

  /** All priorities lie within 2^63 of each other. */
  ghost predicate Narrow<D(!new)>(s: seq<Item<D>>) {
    forall x, y :: x in s && y in s ==> x.priority - y.priority < TWO63
  }

  lemma NarrowLess<D(!new)>(s: seq<Item<D>>, i: nat, j: nat)
    requires Narrow(s) && i < |s| && j < |s|
    ensures Before(s[i].priority, s[j].priority) <==> s[i].priority > s[j].priority
  {
    assert s[i] in s && s[j] in s;
    BeforeIsGreater(s[i].priority, s[j].priority);
  }

  function Par(i: nat): (p: nat)
    requires i > 0
    ensures p < i
  {
    (i - 1) / 2
  }

  /** In the first n elements no parent is below a child. */
  ghost predicate Ordered<D>(s: seq<Item<D>>, n: nat) {
    n <= |s| && forall i :: 0 < i < n ==> s[Par(i)].priority >= s[i].priority
  }

  lemma {:induction false} RootMax<D>(s: seq<Item<D>>, n: nat, i: nat)
    requires Ordered(s, n) && i < n
    ensures s[0].priority >= s[i].priority
    decreases i
  {
    if i > 0 {
      RootMax(s, n, Par(i));
    }
  }

  lemma RootHighest<D>(s: seq<Item<D>>)
    requires Ordered(s, |s|) && s != []
    ensures forall x :: x in s ==> x.priority <= s[0].priority
  {
    forall x | x in s
      ensures x.priority <= s[0].priority
    {
      var i :| 0 <= i < |s| && s[i] == x;
      RootMax(s, |s|, i);
    }
  }

  /** Only position j may be above its parent; its children are not above that parent. */
  ghost predicate UpOk<D>(s: seq<Item<D>>, n: nat, j: nat) {
    && j < n <= |s|
    && (forall i :: 0 < i < n && i != j ==> s[Par(i)].priority >= s[i].priority)
    && (forall c :: 0 < c < n && j > 0 && Par(c) == j ==> s[Par(j)].priority >= s[c].priority)
  }

  lemma UpSwap<D>(s: seq<Item<D>>, n: nat, j: nat)
    requires UpOk(s, n, j) && j > 0 && s[j].priority > s[Par(j)].priority
    ensures UpOk(Exchanged(s, Par(j), j), n, Par(j)) && Exchanged(s, Par(j), j)[n..] == s[n..]
  {
    var p := Par(j);
    var r := Exchanged(s, p, j);
    forall i | 0 < i < n && i != p
      ensures r[Par(i)].priority >= r[i].priority
    {
      if i != j && Par(i) == p {
        assert s[p].priority >= s[i].priority;
      }
    }
    forall c | 0 < c < n && p > 0 && Par(c) == p
      ensures r[Par(p)].priority >= r[c].priority
    {
      assert s[Par(p)].priority >= s[p].priority;
    }
  }

  /** Position i may be above its parent or below its children; the children are not above the parent. */
  ghost predicate Hole<D>(s: seq<Item<D>>, n: nat, i: nat) {
    && n <= |s|
    && (forall c :: 0 < c < n && c != i && Par(c) != i ==> s[Par(c)].priority >= s[c].priority)
    && (forall c :: 0 < c < n && i > 0 && Par(c) == i ==> Par(i) < n && s[Par(i)].priority >= s[c].priority)
  }

  lemma DownSwap<D>(s: seq<Item<D>>, n: nat, i: nat, j: nat)
    requires Hole(s, n, i) && 0 < j < n && Par(j) == i && s[j].priority > s[i].priority
    requires forall c :: 0 < c < n && Par(c) == i ==> s[j].priority >= s[c].priority
    ensures Hole(Exchanged(s, i, j), n, j) && Exchanged(s, i, j)[Par(j)].priority >= Exchanged(s, i, j)[j].priority
    ensures Exchanged(s, i, j)[n..] == s[n..]
  {
    var r := Exchanged(s, i, j);
    forall c | 0 < c < n && c != j && Par(c) != j
      ensures r[Par(c)].priority >= r[c].priority
    {
      if c == i {
        assert s[Par(i)].priority >= s[j].priority;
      }
    }
  }

  /** Where no child is above it, the hole is closed from below. */
  lemma DownEnd<D>(s: seq<Item<D>>, n: nat, i: nat)
    requires Hole(s, n, i) && i < |s|
    requires forall c :: 0 < c < n && Par(c) == i ==> s[i].priority >= s[c].priority
    ensures i < n ==> UpOk(s, n, i)
    ensures i == 0 || i >= n || s[Par(i)].priority >= s[i].priority ==> Ordered(s, n)
  {
    forall k | 0 < k < n && k != i
      ensures s[Par(k)].priority >= s[k].priority
    {}
  }

  /** The two positions below another. */
  lemma Children(i: nat, c: nat)
    requires c > 0
    ensures Par(c) == i <==> c == 2 * i + 1 || c == 2 * i + 2
  {}

  lemma UpEnd<D>(s: seq<Item<D>>, n: nat, j: nat)
    requires UpOk(s, n, j) && (j == 0 || s[Par(j)].priority >= s[j].priority)
    ensures Ordered(s, n)
  {}

  /** One exchange, with what it keeps. */
  method Exchange<D(!new, ==)>(st: Stack<D>, i: nat, j: nat)
    requires st.Valid() && i < |st.items| && j < |st.items|
    modifies st, st.blocks, st.reports
    ensures st.Valid() && st.blocks == old(st.blocks) && st.items == Exchanged(old(st.items), i, j)
    ensures Shuffled(st.side, old(st.items), old(st.reports.index), st.items, st.reports.index)
    ensures Narrow(old(st.items)) ==> Narrow(st.items)
  {
    hide Shuffled;
    hide Narrow;
    hide Noted;
    hide Exchanged;
    ShuffledSwap(st.side, st.items, st.reports.index, i, j);
    if Narrow(st.items) {
      NarrowSwap(st.side, st.items, st.reports.index, i, j);
    }
    st.Swap(i, j);
  }

  /** up: the element at j0 rises until its parent is not below it. */
  method Up<D(!new, ==)>(st: Stack<D>, j0: nat, ghost n: nat)
    requires st.Valid() && Narrow(st.items) && UpOk(st.items, n, j0)
    modifies st, st.blocks, st.reports
    ensures st.Valid() && st.blocks == old(st.blocks)
    ensures Shuffled(st.side, old(st.items), old(st.reports.index), st.items, st.reports.index)
    ensures Ordered(st.items, n) && st.items[n..] == old(st.items)[n..]
  {
    hide UpOk;
    hide Ordered;
    hide Shuffled;
    hide Narrow;
    hide Before;
    hide Exchanged;
    var j: nat := j0;
    ghost var s0, i0 := st.items, st.reports.index;
    ShuffledSelf(st.side, s0, i0);
    UpRange(s0, n, j0);
    while true
      invariant st.Valid() && st.blocks == old(st.blocks) && |st.items| == |s0|
      invariant j < n <= |s0| && UpOk(st.items, n, j) && Narrow(st.items) && st.items[n..] == s0[n..]
      invariant Shuffled(st.side, s0, i0, st.items, st.reports.index)
      decreases j
    {
      ghost var s1, i1 := st.items, st.reports.index;
      var i := if j == 0 then 0 else (j - 1) / 2;
      if i == j {
        UpEnd(s1, n, j);
        break;
      }
      NarrowLess(s1, j, i);
      var less := st.Less(j, i);
      if !less {
        UpEnd(s1, n, j);
        break;
      }
      UpSwap(s1, n, j);
      Exchange(st, i, j);
      ShuffledTrans(st.side, s0, i0, s1, i1, st.items, st.reports.index);
      j := i;
    }
  }

  lemma UpRange<D>(s: seq<Item<D>>, n: nat, j: nat)
    requires UpOk(s, n, j)
    ensures j < n <= |s|
  {}

  lemma NarrowSwap<D(!new)>(side: Side, s: seq<Item<D>>, ix: map<D, int>, i: nat, j: nat)
    requires Narrow(s) && i < |s| && j < |s|
    ensures Narrow(Exchanged(s, i, j))
  {
    ShuffledSwap(side, s, ix, i, j);
    ShuffledMembers(side, s, ix, Exchanged(s, i, j), Noted(side, Noted(side, ix, s[j].value, i), s[i].value, j));
    hide Shuffled;
  }

  /** The larger child of i, and whether it is above i. */
  method PickChild<D(!new, ==)>(st: Stack<D>, i: nat, n: nat) returns (j: nat, less: bool)
    requires st.Valid() && Narrow(st.items) && 2 * i + 1 < n <= |st.items|
    ensures i < j < n && Par(j) == i && (less <==> st.items[j].priority > st.items[i].priority)
    ensures forall c :: 0 < c < n && Par(c) == i ==> st.items[j].priority >= st.items[c].priority
  {
    hide Narrow;
    hide Before;
    var j1 := 2 * i + 1;
    j := j1;
    if j1 + 1 < n {
      NarrowLess(st.items, j1 + 1, j1);
      var right := st.Less(j1 + 1, j1);
      if right {
        j := j1 + 1;
      }
    }
    Highest(st.items, n, i, j);
    NarrowLess(st.items, j, i);
    less := st.Less(j, i);
  }

  /** down: the element at i0 sinks below larger children among the first n; tells whether it moved. */
  method Down<D(!new, ==)>(st: Stack<D>, i0: nat, n: nat) returns (moved: bool)
    requires st.Valid() && Narrow(st.items) && Hole(st.items, n, i0) && i0 < |st.items|
    modifies st, st.blocks, st.reports
    ensures st.Valid() && st.blocks == old(st.blocks)
    ensures Shuffled(st.side, old(st.items), old(st.reports.index), st.items, st.reports.index)
    ensures moved || i0 == 0 || i0 >= n ==> Ordered(st.items, n)
    ensures !moved && i0 < n ==> UpOk(st.items, n, i0)
    ensures st.items[n..] == old(st.items)[n..]
    ensures !moved ==> st.items == old(st.items)
  {
    hide UpOk;
    hide Ordered;
    hide Hole;
    hide Shuffled;
    hide Narrow;
    hide Before;
    hide Exchanged;
    hide Par;
    var i: nat := i0;
    ghost var s0, x0 := st.items, st.reports.index;
    ShuffledSelf(st.side, s0, x0);
    HoleRange(s0, n, i0);
    while true
      invariant st.Valid() && st.blocks == old(st.blocks) && |st.items| == |s0|
      invariant i0 <= i < |s0| && n <= |s0| && Hole(st.items, n, i) && Narrow(st.items) && st.items[n..] == s0[n..]
      invariant i != i0 ==> 0 < i < n && st.items[Par(i)].priority >= st.items[i].priority
      invariant i == i0 ==> st.items == s0
      invariant Shuffled(st.side, s0, x0, st.items, st.reports.index)
      decreases |s0| - i
    {
      ghost var s1, x1 := st.items, st.reports.index;
      var j1 := 2 * i + 1;
      if j1 >= n {
        NoChildren(s1, n, i);
        break;
      }
      var j, less := PickChild(st, i, n);
      if !less {
        DownEnd(s1, n, i);
        break;
      }
      DownSwap(s1, n, i, j);
      Exchange(st, i, j);
      ShuffledTrans(st.side, s0, x0, s1, x1, st.items, st.reports.index);
      i := j;
    }
    moved := i > i0;
  }

  lemma HoleRange<D>(s: seq<Item<D>>, n: nat, i: nat)
    requires Hole(s, n, i)
    ensures n <= |s|
  {}

  lemma NoChildren<D>(s: seq<Item<D>>, n: nat, i: nat)
    requires Hole(s, n, i) && i < |s| && 2 * i + 1 >= n
    ensures i < n ==> UpOk(s, n, i)
    ensures i == 0 || i >= n || s[Par(i)].priority >= s[i].priority ==> Ordered(s, n)
  {
    DownEnd(s, n, i);
  }

  /** The chosen child is not below the other one. */
  lemma Highest<D>(s: seq<Item<D>>, n: nat, i: nat, j: nat)
    requires n <= |s| && 2 * i + 1 <= j <= 2 * i + 2 && j < n
    requires j == 2 * i + 1 && j + 1 < n ==> s[j].priority >= s[j + 1].priority
    requires j == 2 * i + 2 ==> s[j].priority >= s[j - 1].priority
    ensures Par(j) == i && forall c :: 0 < c < n && Par(c) == i ==> s[j].priority >= s[c].priority
  {
    forall c | 0 < c < n && Par(c) == i
      ensures s[j].priority >= s[c].priority
    {
      Children(i, c);
    }
  }

  // ---- the operations ----

  /** One item more; its value and those held may have new reported indices, which are kept up. */
  ghost predicate Grown<D(!new)>(side: Side, s: seq<Item<D>>, ix: map<D, int>, s': seq<Item<D>>, ix': map<D, int>,
                                 x: Item<D>) {
    && |s'| == |s| + 1 && multiset(s') == multiset(s) + multiset{x} && Bag(s') == Bag(s) + multiset{x.value}
    && Elsewhere(ix, ix', s + [x]) && (side.Silent? ==> ix' == ix)
    && (Reported(side, s, ix) && Absent(s, x.value) ==> Reported(side, s', ix'))
  }

  /** One item less; the others' reported indices are kept up, and its own is withdrawn. */
  ghost predicate Shrunk<D(!new)>(side: Side, s: seq<Item<D>>, ix: map<D, int>, s': seq<Item<D>>, ix': map<D, int>,
                                  x: Item<D>) {
    && |s'| + 1 == |s| && multiset(s) == multiset(s') + multiset{x} && Bag(s) == Bag(s') + multiset{x.value}
    && Elsewhere(ix, ix', s) && (side.Silent? ==> ix' == ix)
    && (Reported(side, s, ix) ==> Reported(side, s', ix') && (!side.Silent? ==> Absent(s', x.value)))
  }

  lemma PushGrown<D(!new)>(side: Side, s: seq<Item<D>>, ix: map<D, int>, x: Item<D>)
    ensures Grown(side, s, ix, s + [x], Noted(side, ix, x.value, |s|), x)
  {
    BagPush(s, x);
    assert (s + [x])[|s|] == x;
    if Reported(side, s, ix) && Absent(s, x.value) {
      ReportPush(side, s, ix, x);
    }
  }

  lemma GrownShuffled<D(!new)>(side: Side, s: seq<Item<D>>, ix: map<D, int>, a: seq<Item<D>>, ia: map<D, int>,
                               b: seq<Item<D>>, ib: map<D, int>, x: Item<D>)
    requires Grown(side, s, ix, a, ia, x) && Shuffled(side, a, ia, b, ib)
    ensures Grown(side, s, ix, b, ib, x)
  {
    hide Absent;
    hide Bag;
    hide Reported;
    BagPush(s, x);
    SameAbsent(s + [x], a);
  }

  lemma PopShrunk<D(!new)>(side: Side, s: seq<Item<D>>, ix: map<D, int>, x: Item<D>)
    ensures Shrunk(side, s + [x], ix, s, Noted(side, ix, x.value, -1), x)
  {
    BagPush(s, x);
    assert (s + [x])[|s|] == x;
    if Reported(side, s + [x], ix) {
      ReportPop(side, s, ix, x);
    }
  }

  lemma ShuffledShrunk<D(!new)>(side: Side, s: seq<Item<D>>, ix: map<D, int>, a: seq<Item<D>>, ia: map<D, int>,
                                b: seq<Item<D>>, ib: map<D, int>, x: Item<D>)
    requires Shuffled(side, s, ix, a, ia) && Shrunk(side, a, ia, b, ib, x)
    ensures Shrunk(side, s, ix, b, ib, x)
  {
    hide Absent;
    hide Bag;
    hide Reported;
    SameAbsent(s, a);
  }

  lemma LastUp<D>(s: seq<Item<D>>, x: Item<D>)
    requires Ordered(s, |s|)
    ensures UpOk(s + [x], |s| + 1, |s|)
  {
    var r := s + [x];
    forall i | 0 < i < |s|
      ensures r[Par(i)].priority >= r[i].priority
    {}
  }

  /** heap.Push. */
  method HeapPush<D(!new, ==)>(st: Stack<D>, x: Item<D>)
    requires st.Valid() && Ordered(st.items, |st.items|) && Narrow(st.items + [x])
    modifies st, st.blocks, st.reports
    ensures st.Valid() && forall k :: 0 <= k < |st.blocks| ==> st.blocks[k] in old(st.blocks) || fresh(st.blocks[k])
    ensures Ordered(st.items, |st.items|)
    ensures Grown(st.side, old(st.items), old(st.reports.index), st.items, st.reports.index, x)
  {
    hide Ordered;
    hide Narrow;
    hide Grown;
    hide Shuffled;
    hide UpOk;
    hide Noted;
    ghost var s0, x0 := st.items, st.reports.index;
    LastUp(s0, x);
    PushGrown(st.side, s0, x0, x);
    st.Push(x);
    ghost var s1, x1 := st.items, st.reports.index;
    assert forall k :: 0 <= k < |st.blocks| ==> st.blocks[k] in old(st.blocks) || fresh(st.blocks[k]);
    Up(st, st.size - 1, |s1|);
    GrownShuffled(st.side, s0, x0, s1, x1, st.items, st.reports.index, x);
    GrownLength(st.side, s0, x0, st.items, st.reports.index, x);
  }

  lemma GrownLength<D(!new)>(side: Side, s: seq<Item<D>>, ix: map<D, int>, s': seq<Item<D>>, ix': map<D, int>,
                             x: Item<D>)
    requires Grown(side, s, ix, s', ix', x)
    ensures |s'| == |s| + 1
  {}

  /** With the last element put in its place, position i is the only one out of order. */
  lemma LastHole<D>(s: seq<Item<D>>, i: nat)
    requires Ordered(s, |s|) && i < |s|
    ensures Hole(Exchanged(s, i, |s| - 1), |s| - 1, i)
    ensures Exchanged(s, i, |s| - 1)[|s| - 1] == s[i]
  {
    var n := |s| - 1;
    var r := Exchanged(s, i, n);
    forall c | 0 < c < n && c != i && Par(c) != i
      ensures r[Par(c)].priority >= r[c].priority
    {}
    forall c | 0 < c < n && i > 0 && Par(c) == i
      ensures Par(i) < n && r[Par(i)].priority >= r[c].priority
    {
      assert s[Par(i)].priority >= s[i].priority >= s[c].priority;
    }
  }

  /** Dropping the last element of an ordered front part. */
  lemma OrderedFront<D>(s: seq<Item<D>>, x: Item<D>)
    requires Ordered(s + [x], |s|)
    ensures Ordered(s, |s|)
  {
    var r := s + [x];
    forall i | 0 < i < |s|
      ensures s[Par(i)].priority >= s[i].priority
    {
      assert r[Par(i)].priority >= r[i].priority;
    }
  }

  /** The end of Pop and Remove: the last element, which is the one to go, leaves. */
  method TakeLast<D(!new, ==)>(st: Stack<D>, ghost s0: seq<Item<D>>, ghost x0: map<D, int>, ghost y: Item<D>)
    returns (x: Item<D>)
    requires st.Valid() && st.size > 0 && Ordered(st.items, |st.items| - 1) && st.items[|st.items| - 1] == y
    requires Shuffled(st.side, s0, x0, st.items, st.reports.index)
    modifies st, st.blocks, st.reports
    ensures st.Valid() && st.blocks == old(st.blocks) && x == y && Ordered(st.items, |st.items|)
    ensures Shrunk(st.side, s0, x0, st.items, st.reports.index, x)
  {
    hide Ordered;
    hide Shuffled;
    hide Shrunk;
    hide Noted;
    ghost var s1, x1 := st.items, st.reports.index;
    x := st.Pop();
    OrderedFront(st.items, x);
    PopShrunk(st.side, st.items, x1, x);
    ShuffledShrunk(st.side, s0, x0, s1, x1, st.items, st.reports.index, x);
  }

  /** heap.Pop: the highest item. */
  method HeapPop<D(!new, ==)>(st: Stack<D>) returns (x: Item<D>)
    requires st.Valid() && st.size > 0 && Ordered(st.items, |st.items|) && Narrow(st.items)
    modifies st, st.blocks, st.reports
    ensures st.Valid() && st.blocks == old(st.blocks) && Ordered(st.items, |st.items|)
    ensures x == old(st.items)[0] && forall y :: y in old(st.items) ==> y.priority <= x.priority
    ensures Shrunk(st.side, old(st.items), old(st.reports.index), st.items, st.reports.index, x)
  {
    hide Ordered;
    hide Narrow;
    hide Shuffled;
    hide Shrunk;
    hide Hole;
    hide Exchanged;
    ghost var s0, x0 := st.items, st.reports.index;
    var n := st.size - 1;
    RootHighest(s0);
    LastHole(s0, 0);
    Exchange(st, 0, n);
    ghost var s1, x1 := st.items, st.reports.index;
    var _ := Down(st, 0, n);
    ShuffledLength(st.side, s1, x1, st.items, st.reports.index);
    SameEnd(s1, st.items, n);
    ShuffledTrans(st.side, s0, x0, s1, x1, st.items, st.reports.index);
    x := TakeLast(st, s0, x0, s0[0]);
  }

  lemma SameEnd<D>(s: seq<Item<D>>, s': seq<Item<D>>, n: nat)
    requires |s| == |s'| && n < |s| && s'[n..] == s[n..]
    ensures s'[n] == s[n]
  {
    assert s'[n..][0] == s[n..][0];
  }

  lemma OrderedPrefix<D>(s: seq<Item<D>>, n: nat)
    requires Ordered(s, |s|) && n <= |s|
    ensures Ordered(s, n)
  {}

  /** heap.Remove: the item at a position. */
  method HeapRemove<D(!new, ==)>(st: Stack<D>, i: nat) returns (x: Item<D>)
    requires st.Valid() && i < st.size && Ordered(st.items, |st.items|) && Narrow(st.items)
    modifies st, st.blocks, st.reports
    ensures st.Valid() && st.blocks == old(st.blocks) && Ordered(st.items, |st.items|)
    ensures x == old(st.items)[i]
    ensures Shrunk(st.side, old(st.items), old(st.reports.index), st.items, st.reports.index, x)
  {
    hide Ordered;
    hide Narrow;
    hide Shuffled;
    hide Shrunk;
    hide Hole;
    hide UpOk;
    hide Exchanged;
    ghost var s0, x0 := st.items, st.reports.index;
    var n := st.size - 1;
    ShuffledSelf(st.side, s0, x0);
    OrderedPrefix(s0, n);
    if n != i {
      LastHole(s0, i);
      Exchange(st, i, n);
      Settle(st, i, n, s0, x0);
    }
    x := TakeLast(st, s0, x0, s0[i]);
  }

  /** The element moved into the gap finds its place, below or above. */
  method Settle<D(!new, ==)>(st: Stack<D>, i: nat, n: nat, ghost s0: seq<Item<D>>, ghost x0: map<D, int>)
    requires st.Valid() && i < n < |st.items| && Narrow(st.items) && Hole(st.items, n, i)
    requires Shuffled(st.side, s0, x0, st.items, st.reports.index)
    modifies st, st.blocks, st.reports
    ensures st.Valid() && st.blocks == old(st.blocks) && |st.items| == |old(st.items)|
    ensures Ordered(st.items, n) && st.items[n] == old(st.items)[n]
    ensures Shuffled(st.side, s0, x0, st.items, st.reports.index)
  {
    hide Ordered;
    hide Narrow;
    hide Shuffled;
    hide Hole;
    hide UpOk;
    ghost var s1, x1 := st.items, st.reports.index;
    var moved := Down(st, i, n);
    ShuffledLength(st.side, s1, x1, st.items, st.reports.index);
    ShuffledTrans(st.side, s0, x0, s1, x1, st.items, st.reports.index);
    SameEnd(s1, st.items, n);
    if !moved {
      ghost var s2, x2 := st.items, st.reports.index;
      Up(st, i, n);
      ShuffledLength(st.side, s2, x2, st.items, st.reports.index);
      ShuffledTrans(st.side, s0, x0, s2, x2, st.items, st.reports.index);
      SameEnd(s2, st.items, n);
    }
  }

  lemma ShuffledLength<D(!new)>(side: Side, s: seq<Item<D>>, ix: map<D, int>, s': seq<Item<D>>, ix': map<D, int>)
    requires Shuffled(side, s, ix, s', ix')
    ensures |s'| == |s|
  {}
}
