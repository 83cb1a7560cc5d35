/**
 * The lazy priority queue (common/prque/lazyqueue.go): items are kept by an upper estimate of their
 * priority, which is valid for a while, and their actual priority is only asked for when popping.
 * Two heaps over block-based stacks change places at every refresh; the positions they report are
 * turned into virtual indices that stay good across the change. Times are readings of a clock.
 */
module LazyQueue {
  import opened SStack
  import opened PrqueHeap

  /** Actual priority at a time, and the estimate made at one time for all times until another. */
  datatype Callbacks<!D(!new)> = Callbacks(priority: (D, int) -> int, maxPriority: (D, int, int) -> int) {

    /** Estimates bound the priority until their time. */
    ghost predicate Valid() {
      forall d, from, until, t :: from <= t <= until ==> priority(d, t) <= maxPriority(d, from, until)
    }
  }

  // ---- the numbers in play at one moment ----

  /** They lie within 2^63 of each other. */
  ghost predicate Spread(ns: iset<int>) {
    forall a, b :: a in ns && b in ns ==> a - b < TWO63
  }

  ghost predicate In<D(!new)>(s: seq<Item<D>>, ns: iset<int>) {
    forall x :: x in s ==> x.priority in ns
  }

  /** What would be asked for now: actual priorities, and estimates until the given time. */
  ghost predicate Asked<D(!new)>(cb: Callbacks<D>, ds: multiset<D>, now: int, until: int, ns: iset<int>) {
    forall d :: d in ds ==> cb.priority(d, now) in ns && cb.maxPriority(d, now, until) in ns
  }

  lemma NarrowIn<D(!new)>(s: seq<Item<D>>, ns: iset<int>)
    requires Spread(ns) && In(s, ns)
    ensures Narrow(s)
  {}

  lemma NarrowMore<D(!new)>(s: seq<Item<D>>, x: Item<D>, ns: iset<int>)
    requires Spread(ns) && In(s, ns) && x.priority in ns
    ensures Narrow(s + [x])
  {
    assert forall y :: y in s + [x] ==> y in s || y == x;
  }

  // ---- estimates over time ----

  /** The item's estimate holds from now until the given time. */
  ghost predicate Good<D(!new)>(cb: Callbacks<D>, x: Item<D>, now: int, until: int) {
    forall t :: now <= t <= until ==> cb.priority(x.value, t) <= x.priority
  }

  ghost predicate AllGood<D(!new)>(cb: Callbacks<D>, s: seq<Item<D>>, now: int, until: int) {
    forall x :: x in s ==> Good(cb, x, now, until)
  }

  lemma GoodLater<D(!new)>(cb: Callbacks<D>, s: seq<Item<D>>, now: int, until: int, now': int, until': int)
    requires AllGood(cb, s, now, until) && now <= now' && until' <= until
    ensures AllGood(cb, s, now', until')
  {}

  lemma NoneOrdered<D>()
    ensures Ordered<D>([], 0)
  {}

  lemma NoneGood<D(!new)>(cb: Callbacks<D>, now: int, until: int)
    ensures AllGood(cb, [], now, until)
  {}

  /** After a push: the estimates still hold, and the numbers are still in play. */
  lemma GoodGrown<D(!new)>(cb: Callbacks<D>, side: Side, s: seq<Item<D>>, ix: map<D, int>, s': seq<Item<D>>,
                           ix': map<D, int>, d: D, now: int, until: int, until': int, ns: iset<int>)
    requires cb.Valid() && until <= until' && AllGood(cb, s, now, until) && In(s, ns)
    requires cb.maxPriority(d, now, until') in ns
    requires Grown(side, s, ix, s', ix', Item(d, cb.maxPriority(d, now, until')))
    ensures AllGood(cb, s', now, until) && In(s', ns)
  {
    var x := Item(d, cb.maxPriority(d, now, until'));
    GrownMembers(side, s, ix, s', ix', x);
    assert Good(cb, x, now, until);
  }

  lemma NoneIn<D(!new)>(ns: iset<int>)
    ensures In<D>([], ns)
  {}

  lemma GrownIn<D(!new)>(s': seq<Item<D>>, s: seq<Item<D>>, x: Item<D>, ns: iset<int>)
    requires In(s, ns) && x.priority in ns && forall y :: y in s' <==> y in s || y == x
    ensures In(s', ns)
  {}

  lemma ShrunkSilent<D(!new)>(side: Side, s: seq<Item<D>>, ix: map<D, int>, s': seq<Item<D>>, ix': map<D, int>,
                              x: Item<D>)
    requires Shrunk(side, s, ix, s', ix', x) && side.Silent?
    ensures ix' == ix
  {}

  lemma GrownMembers<D(!new)>(side: Side, s: seq<Item<D>>, ix: map<D, int>, s': seq<Item<D>>, ix': map<D, int>,
                              x: Item<D>)
    requires Grown(side, s, ix, s', ix', x)
    ensures forall y :: y in s' <==> y in s || y == x
  {
    forall y
      ensures y in s' <==> y in s || y == x
    {
      assert y in s' <==> y in multiset(s');
      assert y in s <==> y in multiset(s);
    }
  }

  lemma ShrunkMembers<D(!new)>(side: Side, s: seq<Item<D>>, ix: map<D, int>, s': seq<Item<D>>, ix': map<D, int>,
                               x: Item<D>)
    requires Shrunk(side, s, ix, s', ix', x)
    ensures x in s && (forall y :: y in s' ==> y in s) && |s'| < |s|
    ensures Bag(s) == Bag(s') + multiset{x.value}
  {
    assert x in multiset(s);
    forall y | y in s'
      ensures y in s
    {
      assert y in multiset(s');
      assert y in multiset(s);
    }
  }

  lemma PartGood<D(!new)>(cb: Callbacks<D>, s: seq<Item<D>>, s': seq<Item<D>>, now: int, until: int, ns: iset<int>)
    requires forall y :: y in s' ==> y in s
    ensures AllGood(cb, s, now, until) ==> AllGood(cb, s', now, until)
    ensures In(s, ns) ==> In(s', ns)
  {}

  // ---- reported indices ----

  /** Both heaps' last reported indices are right. */
  ghost predicate Tracks<D(!new)>(a: Side, s: seq<Item<D>>, b: Side, t: seq<Item<D>>, ix: map<D, int>) {
    Reported(a, s, ix) && Reported(b, t, ix)
  }

  ghost predicate TwoSides(a: Side, b: Side) {
    (a.Zero? && b.One?) || (a.One? && b.Zero?)
  }

  lemma SwapTracks<D(!new)>(a: Side, s: seq<Item<D>>, b: Side, t: seq<Item<D>>, ix: map<D, int>)
    ensures Tracks(a, s, b, t, ix) <==> Tracks(b, t, a, s, ix)
  {}

  /** The two heaps have no value in common, since their indices are even and odd. */
  lemma TracksApart<D(!new)>(a: Side, s: seq<Item<D>>, b: Side, t: seq<Item<D>>, ix: map<D, int>)
    requires TwoSides(a, b) && Tracks(a, s, b, t, ix)
    ensures forall i :: 0 <= i < |s| ==> Absent(t, s[i].value)
  {
    forall i, j | 0 <= i < |s| && 0 <= j < |t|
      ensures s[i].value != t[j].value
    {
      assert SetIndex(a, i) != SetIndex(b, j);
    }
  }

  lemma TracksGrown<D(!new)>(a: Side, s: seq<Item<D>>, b: Side, t: seq<Item<D>>, ix: map<D, int>, t': seq<Item<D>>,
                             ix': map<D, int>, x: Item<D>)
    requires TwoSides(a, b) && Tracks(a, s, b, t, ix) && Grown(b, t, ix, t', ix', x) && Absent(s, x.value)
    requires Absent(t, x.value)
    ensures Tracks(a, s, b, t', ix')
  {
    TracksApart(a, s, b, t, ix);
    forall i | 0 <= i < |s|
      ensures Absent(t + [x], s[i].value)
    {}
  }

  lemma TracksShrunk<D(!new)>(a: Side, s: seq<Item<D>>, b: Side, t: seq<Item<D>>, ix: map<D, int>, t': seq<Item<D>>,
                              ix': map<D, int>, x: Item<D>)
    requires TwoSides(a, b) && Tracks(a, s, b, t, ix) && Shrunk(b, t, ix, t', ix', x)
    ensures Tracks(a, s, b, t', ix')
  {
    TracksApart(a, s, b, t, ix);
  }

  /** No value is held twice. */
  lemma TracksDistinct<D(!new)>(a: Side, s: seq<Item<D>>, b: Side, t: seq<Item<D>>, ix: map<D, int>, d: D)
    requires TwoSides(a, b) && Tracks(a, s, b, t, ix)
    ensures (Bag(s) + Bag(t))[d] <= 1
  {
    TracksApart(a, s, b, t, ix);
    OnceEach(a, s, ix, d);
    OnceEach(b, t, ix, d);
    BagMember(t, d);
    BagMember(s, d);
    if !Absent(s, d) {
      var i :| 0 <= i < |s| && s[i].value == d;
      assert Absent(t, s[i].value);
    }
  }

  lemma {:induction false} OnceEach<D(!new)>(a: Side, s: seq<Item<D>>, ix: map<D, int>, d: D)
    requires !a.Silent? && Reported(a, s, ix)
    ensures Bag(s)[d] <= 1
    decreases |s|
  {
    if s == [] {
      BagNone<D>();
    } else {
      var r, x := s[..|s| - 1], s[|s| - 1];
      assert s == r + [x];
      BagPush(r, x);
      OnceEach(a, r, ix, d);
      BagMember(r, d);
      if d == x.value {
        forall i | 0 <= i < |r|
          ensures r[i].value != d
        {
          assert r[i] == s[i] && SetIndex(a, i) != SetIndex(a, |s| - 1);
        }
      }
    }
  }

  // ---- popping ----

  ghost predicate Once<D(!new)>(h: multiset<D>) {
    forall d :: h[d] <= 1
  }

  lemma OnceLess<D(!new)>(h: multiset<D>, h': multiset<D>, r: D)
    requires Once(h) && h == h' + multiset{r}
    ensures Once(h') && forall d :: d in h' <==> d in h && d != r
  {
    assert forall d :: h[d] == h'[d] + multiset{r}[d];
  }

  /** Nothing in the two heaps has a higher number. */
  ghost predicate Beats<D(!new)>(x: Item<D>, s: seq<Item<D>>, t: seq<Item<D>>) {
    forall y :: y in s || y in t ==> y.priority <= x.priority
  }

  /** Popped items carry their actual priority. */
  ghost predicate Actual<D(!new)>(cb: Callbacks<D>, s: seq<Item<D>>, now: int) {
    forall x :: x in s ==> x.priority == cb.priority(x.value, now)
  }

  ghost predicate Descending<D>(s: seq<Item<D>>) {
    forall i, j :: 0 <= i < j < |s| ==> s[i].priority >= s[j].priority
  }

  /** Nothing in the heap has a higher number than anything popped. */
  ghost predicate Dominates<D(!new)>(popped: seq<Item<D>>, s: seq<Item<D>>) {
    forall x, y :: x in popped && y in s ==> x.priority >= y.priority
  }

  /** No item in the heap has a higher actual priority than anything popped. */
  ghost predicate NoneAbove<D(!new)>(cb: Callbacks<D>, popped: seq<Item<D>>, s: seq<Item<D>>, now: int) {
    forall x, y :: x in popped && y in s ==> x.priority >= cb.priority(y.value, now)
  }

  /** Everything popped so far is actual, descending, and not below anything left. */
  ghost predicate Popping<D(!new)>(cb: Callbacks<D>, popped: seq<Item<D>>, pq: seq<Item<D>>, q0: seq<Item<D>>,
                                   q1: seq<Item<D>>, now: int) {
    && Actual(cb, pq, now) && Actual(cb, popped, now) && Descending(popped)
    && Dominates(popped, pq) && Dominates(popped, q0) && Dominates(popped, q1)
  }

  lemma PoppingNone<D(!new)>(cb: Callbacks<D>, q0: seq<Item<D>>, q1: seq<Item<D>>, now: int)
    ensures Popping(cb, [], [], q0, q1, now)
  {}

  /** The item with the highest estimate is looked at. */
  lemma PoppingLook<D(!new)>(cb: Callbacks<D>, popped: seq<Item<D>>, pq: seq<Item<D>>, q0: seq<Item<D>>,
                             q1: seq<Item<D>>, x: Item<D>, pq': seq<Item<D>>, q0': seq<Item<D>>, q1': seq<Item<D>>,
                             now: int, u0: int, u1: int)
    requires Popping(cb, popped, pq, q0, q1, now) && AllGood(cb, q0, now, u0) && AllGood(cb, q1, now, u1) && now <= u0
    requires now <= u1
    requires x in q0 || x in q1
    requires (forall y :: y in q0' ==> y in q0) && (forall y :: y in q1' ==> y in q1)
    requires forall y :: y in pq' <==> y in pq || y == Item(x.value, cb.priority(x.value, now))
    ensures Popping(cb, popped, pq', q0', q1', now)
  {
    assert Good(cb, x, now, u0) || Good(cb, x, now, u1);
    var a := Item(x.value, cb.priority(x.value, now));
    assert a.priority <= x.priority;
  }

  /** The highest actual priority that no estimate reaches can be handed out. */
  lemma HandOut<D(!new)>(cb: Callbacks<D>, popped: seq<Item<D>>, pq: seq<Item<D>>, pq': seq<Item<D>>, i: Item<D>,
                         q0: seq<Item<D>>, q1: seq<Item<D>>, now: int)
    requires Popping(cb, popped, pq, q0, q1, now)
    requires i in pq && (forall y :: y in pq ==> y.priority <= i.priority) && (forall y :: y in pq' ==> y in pq)
    requires forall y :: y in q0 || y in q1 ==> y.priority <= i.priority
    ensures Popping(cb, popped + [i], pq', q0, q1, now)
  {
    var r := popped + [i];
    assert forall x :: x in r ==> x in popped || x == i;
    forall a, b | 0 <= a < b < |r|
      ensures r[a].priority >= r[b].priority
    {
      assert r[a] in popped;
    }
  }

  /** What was looked at but not handed out goes back, with a new estimate. */
  lemma HandBack<D(!new)>(cb: Callbacks<D>, popped: seq<Item<D>>, pq: seq<Item<D>>, x: Item<D>, q1: seq<Item<D>>,
                          q1': seq<Item<D>>, now: int, until: int)
    requires Actual(cb, pq, now) && Dominates(popped, pq) && x in pq && NoneAbove(cb, popped, q1, now)
    requires forall y :: y in q1' <==> y in q1 || y == Item(x.value, cb.maxPriority(x.value, now, until))
    ensures NoneAbove(cb, popped, q1', now)
  {}

  lemma PartActual<D(!new)>(cb: Callbacks<D>, popped: seq<Item<D>>, pq: seq<Item<D>>, pq': seq<Item<D>>, now: int)
    requires Actual(cb, pq, now) && Dominates(popped, pq) && forall y :: y in pq' ==> y in pq
    ensures Actual(cb, pq', now) && Dominates(popped, pq')
  {}

  /** The callback, which may look at all it has been given, asked for more each time before the n-th. */
  ghost predicate Willing<D>(more: seq<Item<D>> -> bool, popped: seq<Item<D>>, n: nat) {
    forall k :: 0 < k < n && k <= |popped| ==> more(popped[..k])
  }

  lemma NoneWilling<D>(more: seq<Item<D>> -> bool)
    ensures Willing(more, [], 1)
  {}

  lemma WillingLess<D>(more: seq<Item<D>> -> bool, popped: seq<Item<D>>)
    requires Willing(more, popped, |popped| + 1)
    ensures Willing(more, popped, |popped|)
  {}

  /** The callback of Pop. */
  predicate Never<D>(popped: seq<Item<D>>) {
    false
  }

  lemma OnlyOne<D(!new)>(more: seq<Item<D>> -> bool, popped: seq<Item<D>>)
    requires forall s :: !more(s)
    ensures Willing(more, popped, |popped|) ==> |popped| <= 1
  {
    if 1 < |popped| {
      assert !more(popped[..1]);
    }
  }

  lemma WillingOne<D>(more: seq<Item<D>> -> bool, popped: seq<Item<D>>, i: Item<D>)
    requires Willing(more, popped, |popped| + 1)
    ensures Willing(more, popped + [i], |popped| + 1)
    ensures more(popped + [i]) ==> Willing(more, popped + [i], |popped| + 2)
  {
    var r := popped + [i];
    assert r[..|r|] == r;
    forall k | 0 < k <= |popped|
      ensures r[..k] == popped[..k]
    {}
  }

  lemma NoneAboveOf<D(!new)>(cb: Callbacks<D>, popped: seq<Item<D>>, s: seq<Item<D>>, now: int, until: int)
    requires AllGood(cb, s, now, until) && now <= until && Dominates(popped, s)
    ensures NoneAbove(cb, popped, s, now)
  {
    forall x, y | x in popped && y in s
      ensures x.priority >= cb.priority(y.value, now)
    {
      assert Good(cb, y, now, until);
    }
  }

  class Queue<D(!new, ==)> {
    const cb: Callbacks<D>
    const period: nat
    const nil: D
    const reports: Reports<D>
    var queue0: Stack<D>
    var queue1: Stack<D>
    var popQueue: Stack<D>
    var maxUntil: int
    var indexOffset: nat
    ghost var refreshed: int
    ghost var repr: set<object>

    ghost predicate Own(st: Stack<D>)
      reads this, st, st.blocks
    {
      st in repr && st.reports == reports && (forall k :: 0 <= k < |st.blocks| ==> st.blocks[k] in repr) && st.Valid()
    }

    ghost predicate Apart(a: Stack<D>, b: Stack<D>)
      reads a, b
    {
      a != b && forall i, j :: 0 <= i < |a.blocks| && 0 <= j < |b.blocks| ==> a.blocks[i] != b.blocks[j]
    }

    /** Three separate stacks. */
    ghost predicate Shape()
      reads this, queue0, queue0.blocks, queue1, queue1.blocks, popQueue, popQueue.blocks
    {
      && reports in repr && Own(queue0) && Own(queue1) && Own(popQueue)
      && Apart(queue0, queue1) && Apart(queue0, popQueue) && Apart(queue1, popQueue)
    }

    /** The two heaps report on different sides, and their estimates are good until the given times. */
    ghost predicate Base(now: int, u0: int, u1: int)
      reads this, queue0, queue0.blocks, queue1, queue1.blocks, popQueue, popQueue.blocks
    {
      && this !in repr && Shape() && cb.Valid() && indexOffset < 2
      && TwoSides(queue0.side, queue1.side) && popQueue.side.Silent?
      && Ordered(queue0.items, |queue0.items|) && Ordered(queue1.items, |queue1.items|)
      && Ordered(popQueue.items, |popQueue.items|)
      && AllGood(cb, queue0.items, now, u0) && AllGood(cb, queue1.items, now, u1)
    }

    /** Estimates in the first heap are good until the next refresh is due, those in the second a period longer. */
    ghost predicate Sane(now: int)
      reads this, queue0, queue0.blocks, queue1, queue1.blocks, popQueue, popQueue.blocks
    {
      refreshed <= now && maxUntil == refreshed + 2 * period && Base(now, refreshed + period, refreshed + 2 * period)
    }

    ghost predicate Valid(now: int)
      reads this, queue0, queue0.blocks, queue1, queue1.blocks, popQueue, popQueue.blocks
    {
      Sane(now) && popQueue.items == []
    }

    ghost function Held(): (m: multiset<D>)
      reads this, queue0, queue1
    {
      Bag(queue0.items) + Bag(queue1.items)
    }

    /** The estimates held lie within 2^63 of each other and of all that is asked for now. */
    ghost predicate InPlay(ns: iset<int>, ds: multiset<D>, now: int, until: int)
      reads this, queue0, queue1
    {
      Spread(ns) && In(queue0.items, ns) && In(queue1.items, ns) && Asked(cb, ds, now, until, ns)
    }

    /** The index last reported for every item is that of its place. */
    ghost predicate Tracked()
      reads this, queue0, queue1, reports
    {
      Tracks(queue0.side, queue0.items, queue1.side, queue1.items, reports.index)
    }

    /** The offset says which of the two heaps is in the first place. */
    predicate Aligned()
      reads this
    {
      queue0.side == if indexOffset == 0 then Zero else One
    }

    /** Time passes. */
    lemma Wait(now: int, now': int)
      requires Valid(now) && now <= now'
      ensures Valid(now')
    {
      GoodLater(cb, queue0.items, now, refreshed + period, now', refreshed + period);
      GoodLater(cb, queue1.items, now, refreshed + 2 * period, now', refreshed + 2 * period);
    }

    /**
     * Reset: two new stacks, the first reporting even indices and the second odd ones. The offset is
     * left as it was, so it only says which is which if it was 0.
     */
    method Clear(ghost now: int, ghost u0: int, ghost u1: int)
      requires this !in repr && reports in repr && Own(popQueue) && popQueue.side.Silent?
      requires cb.Valid() && indexOffset < 2 && Ordered(popQueue.items, |popQueue.items|)
      modifies this`queue0, this`queue1, this`repr
      ensures fresh(repr - old(repr)) && queue0.items == [] && queue1.items == []
      ensures Held() == multiset{} && Tracked() && (Aligned() <==> indexOffset == 0)
      ensures Base(now, u0, u1)
    {
      hide AllGood;
      hide Ordered;
      NoneGood(cb, now, u0);
      NoneGood(cb, now, u1);
      BagNone<D>();
      NoneOrdered<D>();
      hide Shape;
      NewStacks();
    }

    /** The two new stacks. */
    method NewStacks()
      requires this !in repr && reports in repr && Own(popQueue)
      modifies this`queue0, this`queue1, this`repr
      ensures Shape() && this !in repr && fresh(repr - old(repr)) && popQueue.items == old(popQueue.items)
      ensures queue0.items == [] && queue1.items == [] && queue0.side.Zero? && queue1.side.One?
    {
      hide Stack.Valid;
      var a := new Stack(Zero, reports);
      var b := new Stack(One, reports);
      assert popQueue.Valid() && a.Valid() && b.Valid();
      queue0, queue1 := a, b;
      repr := repr + {a, b, a.blocks[0], b.blocks[0]};
      assert Own(a) && Own(b) && Own(popQueue);
      assert Apart(a, b) && Apart(a, popQueue) && Apart(b, popQueue);
    }

    /** Reset, between other calls. */
    method Reset(ghost now: int)
      requires Valid(now)
      modifies this`queue0, this`queue1, this`repr
      ensures fresh(repr - old(repr)) && queue0.items == [] && queue1.items == []
      ensures Held() == multiset{} && Tracked() && (Aligned() <==> indexOffset == 0)
      ensures Valid(now)
    {
      hide Ordered;
      hide AllGood;
      hide Tracks;
      Clear(now, refreshed + period, refreshed + 2 * period);
    }

    /** heap.Push on the second heap. */
    method PushItem(x: Item<D>, ghost ns: iset<int>)
      requires this !in repr && Shape() && Ordered(queue1.items, |queue1.items|) && Spread(ns) && In(queue1.items, ns)
      requires x.priority in ns
      modifies this`repr, repr
      ensures this !in repr && Shape() && fresh(repr - old(repr)) && Ordered(queue1.items, |queue1.items|)
      ensures queue0.items == old(queue0.items) && popQueue.items == old(popQueue.items)
      ensures Grown(queue1.side, old(queue1.items), old(reports.index), queue1.items, reports.index, x)
    {
      hide Ordered;
      hide Narrow;
      hide Grown;
      hide Spread;
      hide In;
      NarrowMore(queue1.items, x, ns);
      HeapPush(queue1, x);
      repr := repr + set k | 0 <= k < |queue1.blocks| :: queue1.blocks[k] as object;
      assert Own(queue0) && Own(queue1) && Own(popQueue);
      assert Apart(queue0, queue1) && Apart(queue1, popQueue);
      assert fresh(repr - old(repr));
    }

    /** heap.Push on the items looked at. */
    method LookAt(x: Item<D>, ghost ns: iset<int>)
      requires this !in repr && Shape() && Ordered(popQueue.items, |popQueue.items|) && Spread(ns)
      requires In(popQueue.items, ns) && x.priority in ns
      modifies this`repr, repr
      ensures this !in repr && Shape() && fresh(repr - old(repr)) && Ordered(popQueue.items, |popQueue.items|)
      ensures queue0.items == old(queue0.items) && queue1.items == old(queue1.items)
      ensures Grown(popQueue.side, old(popQueue.items), old(reports.index), popQueue.items, reports.index, x)
    {
      hide Ordered;
      hide Narrow;
      hide Grown;
      hide Spread;
      hide In;
      NarrowMore(popQueue.items, x, ns);
      HeapPush(popQueue, x);
      repr := repr + set k | 0 <= k < |popQueue.blocks| :: popQueue.blocks[k] as object;
      assert Own(queue0) && Own(queue1) && Own(popQueue);
      assert Apart(queue0, popQueue) && Apart(queue1, popQueue);
      assert fresh(repr - old(repr));
    }

    /** heap.Pop on one of the stacks. */
    method TakeFrom(st: Stack<D>, ghost ns: iset<int>) returns (x: Item<D>)
      requires this !in repr && Shape() && (st == queue0 || st == queue1 || st == popQueue)
      requires st.items != [] && Ordered(st.items, |st.items|) && Spread(ns) && In(st.items, ns)
      modifies repr
      ensures Shape() && Ordered(st.items, |st.items|)
      ensures st != queue0 ==> queue0.items == old(queue0.items)
      ensures st != queue1 ==> queue1.items == old(queue1.items)
      ensures st != popQueue ==> popQueue.items == old(popQueue.items)
      ensures x == old(st.items)[0] && forall y :: y in old(st.items) ==> y.priority <= x.priority
      ensures Shrunk(st.side, old(st.items), old(reports.index), st.items, reports.index, x)
    {
      hide Ordered;
      hide Narrow;
      hide Shrunk;
      hide Spread;
      hide In;
      NarrowIn(st.items, ns);
      x := HeapPop(st);
    }

    /** heap.Remove on one of the heaps. */
    method RemoveFrom(st: Stack<D>, pos: nat, ghost ns: iset<int>) returns (x: Item<D>)
      requires this !in repr && Shape() && (st == queue0 || st == queue1)
      requires pos < |st.items| && Ordered(st.items, |st.items|) && Spread(ns) && In(st.items, ns)
      modifies repr
      ensures Shape() && Ordered(st.items, |st.items|)
      ensures st != queue0 ==> queue0.items == old(queue0.items)
      ensures st != queue1 ==> queue1.items == old(queue1.items)
      ensures popQueue.items == old(popQueue.items) && x == old(st.items)[pos]
      ensures Shrunk(st.side, old(st.items), old(reports.index), st.items, reports.index, x)
    {
      hide Ordered;
      hide Narrow;
      hide Shrunk;
      hide Spread;
      hide In;
      NarrowIn(st.items, ns);
      x := HeapRemove(st, pos);
    }

    /** Push: the item goes into the second heap, with an estimate until the time set. */
    method PushUntil(d: D, now: int, ghost u0: int, ghost u1: int, ghost ns: iset<int>)
      requires Base(now, u0, u1) && u1 <= maxUntil && InPlay(ns, multiset{d}, now, maxUntil)
      modifies this`repr, repr
      ensures fresh(repr - old(repr)) && popQueue.items == old(popQueue.items) && queue0.items == old(queue0.items)
      ensures Held() == old(Held()) + multiset{d} && In(queue1.items, ns)
      ensures forall y :: y in queue1.items <==>
        y in old(queue1.items) || y == Item(d, cb.maxPriority(d, now, maxUntil))
      ensures old(Tracked()) && d !in old(Held()) ==> Tracked()
      ensures Base(now, u0, u1)
    {
      hide Ordered;
      hide AllGood;
      hide Spread;
      hide In;
      hide Grown;
      hide Bag;
      hide Shape;
      hide Tracks;
      ghost var s0, t0, ix0 := queue0.items, queue1.items, reports.index;
      var x := Item(d, cb.maxPriority(d, now, maxUntil));
      assert d in multiset{d};
      PushItem(x, ns);
      GoodGrown(cb, queue1.side, t0, ix0, queue1.items, reports.index, d, now, u1, maxUntil, ns);
      GrownMembers(queue1.side, t0, ix0, queue1.items, reports.index, x);
      GrownBag(queue1.side, t0, ix0, queue1.items, reports.index, x);
      BagMember(s0, d);
      BagMember(t0, d);
      if Tracks(queue0.side, s0, queue1.side, t0, ix0) && Absent(s0, d) && Absent(t0, d) {
        TracksGrown(queue0.side, s0, queue1.side, t0, ix0, queue1.items, reports.index, x);
      }
    }

    /** Push, between refreshes: the estimate is good until the refresh after the next is due. */
    method Push(d: D, now: int, ghost ns: iset<int>)
      requires Sane(now) && InPlay(ns, multiset{d}, now, maxUntil)
      modifies this`repr, repr
      ensures fresh(repr - old(repr)) && popQueue.items == old(popQueue.items) && queue0.items == old(queue0.items)
      ensures Held() == old(Held()) + multiset{d} && In(queue1.items, ns)
      ensures forall y :: y in queue1.items <==>
        y in old(queue1.items) || y == Item(d, cb.maxPriority(d, now, maxUntil))
      ensures old(Tracked()) && d !in old(Held()) ==> Tracked()
      ensures Sane(now)
    {
      hide Ordered;
      hide AllGood;
      hide Spread;
      hide In;
      hide Bag;
      hide Shape;
      hide Tracks;
      PushUntil(d, now, refreshed + period, refreshed + 2 * period, ns);
    }

    /** One round of a refresh. */
    method Reestimate(now: int, ghost u0: int, ghost u1: int, ghost h: multiset<D>, ghost ns: iset<int>)
      requires Base(now, u0, u1) && u1 <= maxUntil && queue0.items != [] && Held() == h && InPlay(ns, h, now, maxUntil)
      modifies this`repr, repr
      ensures fresh(repr - old(repr)) && popQueue.items == old(popQueue.items) && Held() == h
      ensures |queue0.items| < |old(queue0.items)|
      ensures In(queue0.items, ns) && In(queue1.items, ns)
      ensures old(Tracked()) ==> Tracked()
      ensures Base(now, u0, u1)
    {
      hide Ordered;
      hide AllGood;
      hide Spread;
      hide In;
      hide Bag;
      hide Shape;
      hide Tracks;
      hide Shrunk;
      ghost var s0, t0, ix0 := queue0.items, queue1.items, reports.index;
      var x := TakeFrom(queue0, ns);
      ShrunkMembers(queue0.side, s0, ix0, queue0.items, reports.index, x);
      PartGood(cb, s0, queue0.items, now, u0, ns);
      TracksLess(queue1.side, t0, queue0.side, s0, ix0, queue0.items, reports.index, x);
      if Tracks(queue0.side, s0, queue1.side, t0, ix0) {
        TracksDistinct(queue0.side, s0, queue1.side, t0, ix0, x.value);
        assert h == Held() + multiset{x.value};
      }
      assert x.value in h;
      PushUntil(x.value, now, u0, u1, ns);
    }

    /** The loop of a refresh: everything in the first heap goes into the second, with a new estimate. */
    method ReestimateAll(now: int, ghost u0: int, ghost u1: int, ghost ns: iset<int>)
      requires Base(now, u0, u1) && u1 <= maxUntil && InPlay(ns, Held(), now, maxUntil)
      modifies this`repr, repr
      ensures fresh(repr - old(repr)) && popQueue.items == old(popQueue.items) && Held() == old(Held())
      ensures queue0.items == []
      ensures In(queue0.items, ns) && In(queue1.items, ns)
      ensures old(Tracked()) ==> Tracked()
      ensures Base(now, u0, u1)
    {
      hide Ordered;
      hide AllGood;
      hide Spread;
      hide In;
      hide Bag;
      hide Tracks;
      hide Asked;
      ghost var h, pq, tracked := Held(), popQueue.items, Tracked();
      while queue0.size != 0
        invariant Base(now, u0, u1) && fresh(repr - old(repr)) && popQueue.items == pq && Held() == h
        invariant In(queue0.items, ns) && In(queue1.items, ns) && (tracked ==> Tracked())
        decreases |queue0.items|
      {
        Reestimate(now, u0, u1, h, ns);
      }
    }

    /** The end of a refresh: the heaps change places. */
    method Exchange(now: int, ghost u0: int)
      requires Base(now, u0, now + period) && maxUntil == now + period && queue0.items == [] && popQueue.items == []
      modifies this`queue0, this`queue1, this`maxUntil, this`indexOffset, this`refreshed
      ensures refreshed == now && queue0 == old(queue1) && queue1 == old(queue0) && indexOffset == 1 - old(indexOffset)
      ensures Valid(now)
    {
      hide Ordered;
      hide AllGood;
      NoneGood(cb, now, now + 2 * period);
      queue0, queue1 := queue1, queue0;
      indexOffset := 1 - indexOffset;
      maxUntil := maxUntil + period;
      refreshed := now;
    }

    /** The start of a refresh. */
    method SetUntil(until: int, ghost now: int, ghost u0: int, ghost u1: int)
      requires Base(now, u0, u1)
      modifies this`maxUntil
      ensures Base(now, u0, u1) && maxUntil == until
    {
      hide Ordered;
      hide AllGood;
      maxUntil := until;
    }

    /** Refresh, at most a period after the last one: the first heap is estimated anew, and the heaps change places. */
    method Refresh(now: int, ghost ns: iset<int>)
      requires now <= refreshed + period && popQueue.items == [] && InPlay(ns, Held(), now, now + period)
      requires Base(now, refreshed + period, refreshed + 2 * period)
      modifies this`repr, this`queue0, this`queue1, this`maxUntil, this`indexOffset, this`refreshed, repr
      ensures fresh(repr - old(repr)) && refreshed == now && queue1.items == [] && indexOffset == 1 - old(indexOffset)
      ensures queue0 == old(queue1) && queue1 == old(queue0) && Held() == old(Held()) && In(queue0.items, ns)
      ensures In(queue1.items, ns)
      ensures old(Tracked()) ==> Tracked()
      ensures Aligned() <==> old(Aligned())
      ensures Valid(now)
    {
      hide Ordered;
      hide AllGood;
      hide Spread;
      hide In;
      hide Bag;
      hide Tracks;
      hide Asked;
      hide Shape;
      GoodLater(cb, queue1.items, now, refreshed + 2 * period, now, now + period);
      SetUntil(now + period, now, refreshed + period, now + period);
      ReestimateAll(now, refreshed + period, now + period, ns);
      SwapTracks(queue0.side, queue0.items, queue1.side, queue1.items, reports.index);
      Exchange(now, refreshed + period);
    }

    /** NewLazyQueue: a reset and a refresh, after which the offset is 1. */
    constructor (cb: Callbacks<D>, period: nat, nil: D, now: int)
      requires cb.Valid()
      ensures this.cb == cb && this.period == period && this.nil == nil && fresh(repr) && fresh(reports)
      ensures Held() == multiset{} && Tracked() && Aligned() && indexOffset == 1 && refreshed == now
      ensures Valid(now)
    {
      hide Ordered;
      hide AllGood;
      hide Tracks;
      hide Bag;
      hide Shape;
      this.cb, this.period, this.nil := cb, period, nil;
      var reports := new Reports<D>();
      var st := new Stack(Silent, reports);
      this.reports, popQueue, queue0, queue1 := reports, st, st, st;
      maxUntil, indexOffset, refreshed := 0, 0, now;
      repr := {reports, st, st.blocks[0]};
      new;
      NoneOrdered<D>();
      Start(now);
    }

    /** The end of NewLazyQueue. */
    method Start(now: int)
      requires this !in repr && reports in repr && Own(popQueue) && popQueue.side.Silent? && popQueue.items == []
      requires cb.Valid() && indexOffset == 0 && refreshed == now && Ordered(popQueue.items, |popQueue.items|)
      modifies this, repr
      ensures fresh(repr - old(repr)) && Held() == multiset{} && Tracked() && Aligned() && indexOffset == 1
      ensures refreshed == now
      ensures Valid(now)
    {
      hide Ordered;
      hide AllGood;
      hide Tracks;
      hide Shape;
      Clear(now, now + period, now + 2 * period);
      Refresh(now, iset{});
    }

    /** The heap and position that a virtual index stands for. */
    function Slot(index: nat): (s: (nat, nat))
      reads this
    {
      ((index % 2 + indexOffset) % 2, index / 2)
    }

    ghost predicate Names(index: int)
      reads this, queue0, queue1
    {
      index >= 0 && var (k, pos) := Slot(index); pos < if k == 0 then |queue0.items| else |queue1.items|
    }

    ghost function Named(index: int): (d: D)
      requires Names(index)
      reads this, queue0, queue1
    {
      var (k, pos) := Slot(index);
      (if k == 0 then queue0.items[pos] else queue1.items[pos]).value
    }

    /** The index last reported for an item names that item. */
    ghost predicate Finds(d: D)
      reads this, queue0, queue1, reports
    {
      d in reports.index && Names(reports.index[d]) && Named(reports.index[d]) == d
    }

    /** With the offset right, the index last reported for an item names that item. */
    lemma IndexNames(d: D)
      requires TwoSides(queue0.side, queue1.side) && indexOffset < 2 && Tracked() && Aligned() && d in Held()
      ensures d in reports.index && Names(reports.index[d]) && Named(reports.index[d]) == d
    {
      hide Bag;
      hide Reported;
      if d in Bag(queue0.items) {
        var i := Locate(queue0.side, queue0.items, reports.index, d);
        SlotOf(queue0.side, i, indexOffset);
      } else {
        var i := Locate(queue1.side, queue1.items, reports.index, d);
        SlotOf(queue1.side, i, indexOffset);
      }
    }

    /** With the offset wrong, it names the same position of the other heap. */
    lemma IndexMisnames(d: D)
      requires TwoSides(queue0.side, queue1.side) && indexOffset < 2 && Tracked() && !Aligned() && d in Held()
      ensures d in reports.index && reports.index[d] >= 0
      ensures var (k, pos) := Slot(reports.index[d]);
        if k == 0 then pos < |queue1.items| && queue1.items[pos].value == d
        else pos < |queue0.items| && queue0.items[pos].value == d
    {
      hide Bag;
      hide Reported;
      if d in Bag(queue0.items) {
        var i := Locate(queue0.side, queue0.items, reports.index, d);
        SlotOf(queue0.side, i, indexOffset);
      } else {
        var i := Locate(queue1.side, queue1.items, reports.index, d);
        SlotOf(queue1.side, i, indexOffset);
      }
    }

    lemma IndexReported(d: D)
      requires TwoSides(queue0.side, queue1.side) && indexOffset < 2 && Tracked() && d in Held()
      ensures d in reports.index && reports.index[d] >= 0
    {
      hide Bag;
      hide Reported;
      if Aligned() {
        IndexNames(d);
      } else {
        IndexMisnames(d);
      }
    }

    /** The index last reported for an item names that item exactly if the offset is right. */
    lemma IndexIff(d: D)
      requires TwoSides(queue0.side, queue1.side) && indexOffset < 2 && Tracked() && d in Held()
      ensures Finds(d) <==> Aligned()
    {
      hide Bag;
      hide Reported;
      if Aligned() {
        IndexNames(d);
      } else {
        IndexMisnames(d);
        TracksApart(queue0.side, queue0.items, queue1.side, queue1.items, reports.index);
        SwapTracks(queue0.side, queue0.items, queue1.side, queue1.items, reports.index);
        TracksApart(queue1.side, queue1.items, queue0.side, queue0.items, reports.index);
      }
    }

    /** Remove: the item at a virtual index leaves its heap; a negative index gives nil. */
    method Remove(index: int, now: int, ghost ns: iset<int>) returns (r: D)
      requires Sane(now) && (index >= 0 ==> Names(index)) && Spread(ns) && In(queue0.items, ns) && In(queue1.items, ns)
      modifies repr
      ensures index < 0 ==> r == nil && Held() == old(Held()) && reports.index == old(reports.index)
      ensures index >= 0 ==> r == old(Named(index)) && old(Held()) == Held() + multiset{r}
      ensures popQueue.items == old(popQueue.items) && In(queue0.items, ns) && In(queue1.items, ns)
      ensures old(Tracked()) ==> Tracked()
      ensures Sane(now)
    {
      hide Ordered;
      hide AllGood;
      hide Spread;
      hide In;
      hide Shrunk;
      hide Bag;
      hide Shape;
      hide Tracks;
      if index < 0 {
        return nil;
      }
      ghost var s0, t0, ix0 := queue0.items, queue1.items, reports.index;
      var (k, pos) := Slot(index);
      if k == 0 {
        var x := RemoveFrom(queue0, pos, ns);
        ShrunkMembers(queue0.side, s0, ix0, queue0.items, reports.index, x);
        PartGood(cb, s0, queue0.items, now, refreshed + period, ns);
        TracksLess(queue1.side, t0, queue0.side, s0, ix0, queue0.items, reports.index, x);
        r := x.value;
      } else {
        var x := RemoveFrom(queue1, pos, ns);
        ShrunkMembers(queue1.side, t0, ix0, queue1.items, reports.index, x);
        PartGood(cb, t0, queue1.items, now, refreshed + 2 * period, ns);
        TracksLess(queue0.side, s0, queue1.side, t0, ix0, queue1.items, reports.index, x);
        r := x.value;
      }
    }

    /** Update: the item at a virtual index gets a new estimate; a negative index pushes nil. */
    method Update(index: int, now: int, ghost ns: iset<int>)
      requires Valid(now) && (index >= 0 ==> Names(index)) && InPlay(ns, Held() + multiset{nil}, now, maxUntil)
      modifies this`repr, repr
      ensures fresh(repr - old(repr)) && Held() == old(Held()) + if index < 0 then multiset{nil} else multiset{}
      ensures In(queue0.items, ns) && In(queue1.items, ns)
      ensures old(Tracked()) && (index >= 0 || nil !in old(Held())) ==> Tracked()
      ensures Valid(now)
    {
      hide Ordered;
      hide AllGood;
      hide Spread;
      hide In;
      hide Bag;
      hide Shape;
      hide Tracks;
      ghost var h, s0, t0, ix0 := Held(), queue0.items, queue1.items, reports.index;
      var d := Remove(index, now, ns);
      if Tracks(queue0.side, s0, queue1.side, t0, ix0) && index >= 0 {
        TracksDistinct(queue0.side, s0, queue1.side, t0, ix0, d);
        assert h == Held() + multiset{d};
      }
      assert d in h + multiset{nil};
      Push(d, now, ns);
    }

    /** The heap whose top nothing in the two heaps beats; -1 if there is nothing. */
    ghost predicate PeekedAt(k: int)
      reads this, queue0, queue1
    {
      || (k == -1 && queue0.items == [] && queue1.items == [])
      || (k == 0 && queue0.items != [] && Beats(queue0.items[0], queue0.items, queue1.items))
      || (k == 1 && queue1.items != [] && Beats(queue1.items[0], queue0.items, queue1.items))
    }

    /** peekIndex: the heap whose top has the highest estimate, or -1. */
    method PeekIndex(ghost now: int) returns (k: int)
      requires Sane(now)
      ensures PeekedAt(k)
    {
      hide Ordered;
      if queue0.items != [] {
        RootHighest(queue0.items);
      }
      if queue1.items != [] {
        RootHighest(queue1.items);
      }
      if queue0.size != 0 {
        if queue1.size != 0 {
          var a := queue0.At(0);
          var b := queue1.At(0);
          if b.priority > a.priority {
            return 1;
          }
        }
        return 0;
      }
      if queue1.size != 0 {
        return 1;
      }
      return -1;
    }

    /** In the middle of popping: what has been handed out, and what is still to come. */
    ghost predicate Middle(popped: seq<Item<D>>, now: int, h: multiset<D>, ns: iset<int>, tracked: bool)
      reads this, queue0, queue0.blocks, queue1, queue1.blocks, popQueue, popQueue.blocks, reports
    {
      && this !in repr && Sane(now) && now <= refreshed + period && Spread(ns) && Asked(cb, h, now, maxUntil, ns)
      && In(queue0.items, ns) && In(queue1.items, ns) && In(popQueue.items, ns)
      && Popping(cb, popped, popQueue.items, queue0.items, queue1.items, now)
      && h == Held() + Bag(popQueue.items) + Bag(popped) && (tracked ==> Tracked())
    }

    /** The item at the top of a heap is looked at. */
    method Consider(st: Stack<D>, ghost popped: seq<Item<D>>, now: int, ghost h: multiset<D>, ghost ns: iset<int>,
                    ghost tracked: bool)
      requires Middle(popped, now, h, ns, tracked) && (st == queue0 || st == queue1) && st.items != []
      modifies this`repr, repr
      ensures fresh(repr - old(repr)) && |queue0.items| + |queue1.items| < old(|queue0.items| + |queue1.items|)
      ensures Middle(popped, now, h, ns, tracked)
    {
      hide Ordered;
      hide AllGood;
      hide Spread;
      hide In;
      hide Bag;
      hide Shape;
      hide Tracks;
      hide Shrunk;
      hide Grown;
      hide Popping;
      ghost var s0, t0, p0, ix0 := queue0.items, queue1.items, popQueue.items, reports.index;
      ghost var u0, u1 := refreshed + period, refreshed + 2 * period;
      var x := TakeFrom(st, ns);
      ghost var ix1 := reports.index;
      if st == queue0 {
        ShrunkMembers(queue0.side, s0, ix0, queue0.items, ix1, x);
        PartGood(cb, s0, queue0.items, now, u0, ns);
        TracksLess(queue1.side, t0, queue0.side, s0, ix0, queue0.items, ix1, x);
      } else {
        ShrunkMembers(queue1.side, t0, ix0, queue1.items, ix1, x);
        PartGood(cb, t0, queue1.items, now, u1, ns);
        TracksLess(queue0.side, s0, queue1.side, t0, ix0, queue1.items, ix1, x);
      }
      assert x.value in h;
      var a := Item(x.value, cb.priority(x.value, now));
      LookAt(a, ns);
      GrownMembers(popQueue.side, p0, ix1, popQueue.items, reports.index, a);
      GrownBag(popQueue.side, p0, ix1, popQueue.items, reports.index, a);
      GrownIn(popQueue.items, p0, a, ns);
      PoppingLook(cb, popped, p0, s0, t0, x, popQueue.items, queue0.items, queue1.items, now, u0, u1);
    }

    /** The best item looked at is handed out, if nothing left can beat it. */
    method HandOver(ghost popped: seq<Item<D>>, now: int, ghost h: multiset<D>, ghost ns: iset<int>,
                    ghost tracked: bool)
      returns (i: Item<D>)
      requires Middle(popped, now, h, ns, tracked) && popQueue.items != []
      requires Beats(popQueue.items[0], queue0.items, queue1.items)
      modifies repr
      ensures queue0.items == old(queue0.items) && queue1.items == old(queue1.items)
      ensures |popQueue.items| < |old(popQueue.items)|
      ensures Middle(popped + [i], now, h, ns, tracked)
    {
      hide Ordered;
      hide AllGood;
      hide Spread;
      hide In;
      hide Bag;
      hide Shape;
      hide Tracks;
      hide Shrunk;
      hide Popping;
      ghost var p0, ix0 := popQueue.items, reports.index;
      i := TakeFrom(popQueue, ns);
      ShrunkMembers(popQueue.side, p0, ix0, popQueue.items, reports.index, i);
      ShrunkSilent(popQueue.side, p0, ix0, popQueue.items, reports.index, i);
      PartGood(cb, p0, popQueue.items, now, now, ns);
      HandOut(cb, popped, p0, popQueue.items, i, queue0.items, queue1.items, now);
      BagPush(popped, i);
    }

    /** After popping: what was looked at in vain is on its way back. */
    ghost predicate Ending(popped: seq<Item<D>>, now: int, h: multiset<D>, ns: iset<int>, tracked: bool)
      reads this, queue0, queue0.blocks, queue1, queue1.blocks, popQueue, popQueue.blocks, reports
    {
      && Sane(now) && Spread(ns) && Asked(cb, h, now, maxUntil, ns) && (tracked ==> Tracked())
      && In(queue0.items, ns) && In(queue1.items, ns) && In(popQueue.items, ns)
      && Actual(cb, popQueue.items, now) && Dominates(popped, popQueue.items)
      && NoneAbove(cb, popped, queue0.items, now) && NoneAbove(cb, popped, queue1.items, now)
      && h == Held() + Bag(popQueue.items) + Bag(popped)
    }

    /** One item goes back, with a new estimate. */
    method PutOneBack(ghost popped: seq<Item<D>>, now: int, ghost h: multiset<D>, ghost ns: iset<int>,
                      ghost tracked: bool)
      requires Ending(popped, now, h, ns, tracked) && popQueue.items != [] && (tracked ==> Once(h))
      modifies this`repr, repr
      ensures fresh(repr - old(repr)) && |popQueue.items| < |old(popQueue.items)|
      ensures Ending(popped, now, h, ns, tracked)
    {
      hide Ordered;
      hide AllGood;
      hide Spread;
      hide In;
      hide Bag;
      hide Shape;
      hide Tracks;
      hide Shrunk;
      hide Actual;
      hide Dominates;
      hide NoneAbove;
      ghost var p0, ix0, t0 := popQueue.items, reports.index, queue1.items;
      var x := TakeFrom(popQueue, ns);
      ShrunkMembers(popQueue.side, p0, ix0, popQueue.items, reports.index, x);
      ShrunkSilent(popQueue.side, p0, ix0, popQueue.items, reports.index, x);
      PartGood(cb, p0, popQueue.items, now, now, ns);
      PartActual(cb, popped, p0, popQueue.items, now);
      assert x.value in h;
      assert h == Held() + Bag(popQueue.items) + multiset{x.value} + Bag(popped);
      assert tracked ==> x.value !in Held();
      Push(x.value, now, ns);
      HandBack(cb, popped, p0, x, t0, queue1.items, now, maxUntil);
    }

    /** What popping achieves: nothing left has a higher actual priority than anything handed out. */
    ghost predicate Ended(popped: seq<Item<D>>, now: int, h: multiset<D>, tracked: bool)
      reads this, queue0, queue0.blocks, queue1, queue1.blocks, popQueue, popQueue.blocks, reports
    {
      && Valid(now) && h == Held() + Bag(popped) && (tracked ==> Tracked())
      && Actual(cb, popped, now) && Descending(popped)
      && NoneAbove(cb, popped, queue0.items, now) && NoneAbove(cb, popped, queue1.items, now)
    }

    /** All that was looked at but not handed out goes back. */
    method PutBack(ghost popped: seq<Item<D>>, now: int, ghost h: multiset<D>, ghost ns: iset<int>, ghost tracked: bool)
      requires Middle(popped, now, h, ns, tracked) && (tracked ==> Once(h))
      modifies this`repr, repr
      ensures fresh(repr - old(repr)) && Ended(popped, now, h, tracked) && In(queue0.items, ns) && In(queue1.items, ns)
    {
      hide Ordered;
      hide AllGood;
      hide Spread;
      hide In;
      hide Bag;
      hide Tracks;
      hide Actual;
      hide Dominates;
      hide Descending;
      hide NoneAbove;
      hide Asked;
      NoneAboveOf(cb, popped, queue0.items, now, refreshed + period);
      NoneAboveOf(cb, popped, queue1.items, now, refreshed + 2 * period);
      while popQueue.size != 0
        invariant fresh(repr - old(repr)) && Ending(popped, now, h, ns, tracked)
        decreases |popQueue.items|
      {
        PutOneBack(popped, now, h, ns, tracked);
      }
      BagNone<D>();
    }

    /** The highest estimate, given where it is. */
    ghost function Top(k: int): (n: int)
      requires PeekedAt(k) && k != -1
      reads this, queue0, queue1
    {
      if k == 0 then queue0.items[0].priority else queue1.items[0].priority
    }

    /** The best item looked at can go, if there is one and no estimate reaches it. */
    method Ready(next: int, ghost now: int) returns (ready: bool)
      requires Sane(now) && PeekedAt(next)
      ensures ready <==> popQueue.items != [] && (next == -1 || Top(next) < popQueue.items[0].priority)
      ensures ready ==> Beats(popQueue.items[0], queue0.items, queue1.items)
    {
      if popQueue.size == 0 {
        return false;
      }
      if next == -1 {
        return true;
      }
      var b := popQueue.At(0);
      var a;
      if next == 0 {
        a := queue0.At(0);
      } else {
        a := queue1.At(0);
      }
      return a.priority < b.priority;
    }

    /** All that nothing left can beat is handed out. */
    method HandOutAll(next: int, popped0: seq<Item<D>>, more: seq<Item<D>> -> bool, now: int,
                      ghost h: multiset<D>, ghost ns: iset<int>, ghost tracked: bool)
      returns (popped: seq<Item<D>>, stop: bool)
      requires Middle(popped0, now, h, ns, tracked) && (tracked ==> Once(h)) && Willing(more, popped0, |popped0| + 1)
      requires PeekedAt(next)
      modifies this`repr, repr
      ensures fresh(repr - old(repr))
      ensures !stop ==> queue0.items == old(queue0.items) && queue1.items == old(queue1.items)
      ensures !stop ==> Middle(popped, now, h, ns, tracked) && Willing(more, popped, |popped| + 1)
      ensures !stop ==> (next == -1 ==> popQueue.items == [])
      ensures stop ==> Ended(popped, now, h, tracked) && popped != [] && !more(popped)
      ensures stop ==> Willing(more, popped, |popped|)
      ensures In(queue0.items, ns) && In(queue1.items, ns)
    {
      hide Sane;
      hide In;
      hide Bag;
      hide Held;
      hide Tracked;
      hide Popping;
      hide Asked;
      hide Spread;
      hide Beats;
      hide Willing;
      hide Ended;
      hide Once;
      popped := popped0;
      ghost var s1, t1 := queue0.items, queue1.items;
      var ready := Ready(next, now);
      while ready
        invariant fresh(repr - old(repr)) && Middle(popped, now, h, ns, tracked) && Willing(more, popped, |popped| + 1)
        invariant queue0.items == s1 && queue1.items == t1 && PeekedAt(next)
        invariant ready ==> popQueue.items != [] && Beats(popQueue.items[0], queue0.items, queue1.items)
        invariant !ready && next == -1 ==> popQueue.items == []
        decreases |popQueue.items|
      {
        var i := HandOver(popped, now, h, ns, tracked);
        WillingOne(more, popped, i);
        popped := popped + [i];
        if !more(popped) {
          PutBack(popped, now, h, ns, tracked);
          return popped, true;
        }
        ready := Ready(next, now);
      }
      return popped, false;
    }

    /** One round: an item is looked at, and all that nothing left can beat is handed out. */
    method Round(k: int, popped0: seq<Item<D>>, more: seq<Item<D>> -> bool, now: int,
                 ghost h: multiset<D>, ghost ns: iset<int>, ghost tracked: bool)
      returns (popped: seq<Item<D>>, next: int, stop: bool)
      requires Middle(popped0, now, h, ns, tracked) && (tracked ==> Once(h)) && Willing(more, popped0, |popped0| + 1)
      requires PeekedAt(k) && k != -1
      modifies this`repr, repr
      ensures fresh(repr - old(repr))
      ensures !stop ==> |queue0.items| + |queue1.items| < old(|queue0.items| + |queue1.items|)
      ensures !stop ==> Middle(popped, now, h, ns, tracked) && Willing(more, popped, |popped| + 1)
      ensures !stop ==> PeekedAt(next) && (next == -1 ==> popQueue.items == [])
      ensures stop ==> Ended(popped, now, h, tracked) && popped != [] && !more(popped)
      ensures stop ==> Willing(more, popped, |popped|)
      ensures In(queue0.items, ns) && In(queue1.items, ns)
    {
      hide Sane;
      hide In;
      hide Bag;
      hide Held;
      hide Tracked;
      hide Popping;
      hide Asked;
      hide Spread;
      hide Beats;
      hide Willing;
      hide Ended;
      hide Once;
      Consider(if k == 0 then queue0 else queue1, popped0, now, h, ns, tracked);
      next := PeekIndex(now);
      popped, stop := HandOutAll(next, popped0, more, now, h, ns, tracked);
    }

    /**
     * MultiPop: items leave in the order of their actual priorities, none left behind has a higher
     * one, and it ends when the callback has had enough or nothing is left.
     */
    method MultiPop(more: seq<Item<D>> -> bool, now: int, ghost ns: iset<int>) returns (popped: seq<Item<D>>)
      requires Valid(now) && now <= refreshed + period && InPlay(ns, Held(), now, maxUntil)
      modifies this`repr, repr
      ensures fresh(repr - old(repr)) && Ended(popped, now, old(Held()), old(Tracked())) && In(queue0.items, ns)
      ensures In(queue1.items, ns)
      ensures Willing(more, popped, |popped|) && (Held() == multiset{} || (popped != [] && !more(popped)))
    {
      hide Sane;
      hide In;
      hide Bag;
      hide Tracked;
      hide Popping;
      hide Asked;
      hide Spread;
      hide Beats;
      hide Willing;
      hide Once;
      hide Ended;
      popped := [];
      ghost var h, tracked := Held(), Tracked();
      Begin(now, ns);
      NoneWilling(more);
      var next := PeekIndex(now);
      while next != -1
        invariant fresh(repr - old(repr)) && Middle(popped, now, h, ns, tracked) && Willing(more, popped, |popped| + 1)
        invariant PeekedAt(next) && (next == -1 ==> popQueue.items == [])
        decreases |queue0.items| + |queue1.items|
      {
        var stop;
        popped, next, stop := Round(next, popped, more, now, h, ns, tracked);
        if stop {
          return;
        }
      }
      Finish(popped, now, h, ns, tracked);
      WillingLess(more, popped);
    }

    lemma Begin(now: int, ns: iset<int>)
      requires Valid(now) && now <= refreshed + period && InPlay(ns, Held(), now, maxUntil)
      ensures Middle([], now, Held(), ns, Tracked()) && (Tracked() ==> Once(Held()))
    {
      hide Ordered;
      hide AllGood;
      hide In;
      hide Bag;
      hide Tracks;
      hide Asked;
      hide Shape;
      BagNone<D>();
      NoneIn<D>(ns);
      PoppingNone(cb, queue0.items, queue1.items, now);
      forall d | Tracked()
        ensures Held()[d] <= 1
      {
        TracksDistinct(queue0.side, queue0.items, queue1.side, queue1.items, reports.index, d);
      }
    }

    lemma Finish(popped: seq<Item<D>>, now: int, h: multiset<D>, ns: iset<int>, tracked: bool)
      requires Middle(popped, now, h, ns, tracked) && queue0.items == [] && queue1.items == [] && popQueue.items == []
      ensures Ended(popped, now, h, tracked) && Held() == multiset{}
    {
      hide Shape;
      hide Tracks;
      BagNone<D>();
    }

    /** Pop: the item with the highest actual priority of all, or nil. */
    method Pop(now: int, ghost ns: iset<int>) returns (r: D, pri: int)
      requires Valid(now) && now <= refreshed + period && InPlay(ns, Held(), now, maxUntil)
      modifies this`repr, repr
      ensures old(Held()) == multiset{} ==> r == nil && pri == 0 && Held() == multiset{}
      ensures old(Held()) != multiset{} ==> old(Held()) == Held() + multiset{r} && pri == cb.priority(r, now)
      ensures forall d :: d in old(Held()) ==> cb.priority(d, now) <= pri
      ensures fresh(repr - old(repr)) && In(queue0.items, ns) && In(queue1.items, ns) && (old(Tracked()) ==> Tracked())
      ensures Valid(now)
    {
      hide Sane;
      hide Bag;
      hide In;
      hide Tracked;
      hide Asked;
      hide Spread;
      hide NoneAbove;
      ghost var h := Held();
      var popped := MultiPop(Never, now, ns);
      BagNone<D>();
      if popped == [] {
        return nil, 0;
      }
      var x := popped[0];
      OnlyOne(Never, popped);
      assert popped == [] + [x];
      BagPush([], x);
      BelowBag(cb, popped, x, queue0.items, now);
      BelowBag(cb, popped, x, queue1.items, now);
      return x.value, x.priority;
    }

    /** An item is removed by the index last reported for it. */
    method RemoveReported(d: D, now: int, ghost ns: iset<int>) returns (r: D)
      requires Valid(now) && Tracked() && Aligned() && d in Held() && Spread(ns) && In(queue0.items, ns)
      requires In(queue1.items, ns)
      modifies repr
      ensures r == d && old(Held()) == Held() + multiset{d} && d !in Held()
      ensures Valid(now) && Tracked() && Aligned() && In(queue0.items, ns) && In(queue1.items, ns)
    {
      hide Shape;
      hide Tracks;
      hide Bag;
      hide In;
      hide Spread;
      hide Ordered;
      hide AllGood;
      IndexNames(d);
      TracksDistinct(queue0.side, queue0.items, queue1.side, queue1.items, reports.index, d);
      r := Remove(reports.index[d], now, ns);
    }

    /** Between the calls of a run: every index is right, and the owner knows what is held. */
    ghost predicate Kept(now: int, held: set<D>, ns: iset<int>)
      reads this, queue0, queue0.blocks, queue1, queue1.blocks, popQueue, popQueue.blocks, reports
    {
      && this !in repr && indexOffset < 2 && TwoSides(queue0.side, queue1.side)
      && Valid(now) && now <= refreshed + period && Tracked() && Spread(ns) && In(queue0.items, ns)
      && In(queue1.items, ns)
      && Once(Held()) && forall d :: d in held <==> d in Held()
    }

    lemma StartKept(now: int, ns: iset<int>)
      requires Valid(now) && refreshed == now && Held() == multiset{} && Tracked() && Spread(ns)
      ensures Kept(now, {}, ns)
    {
      hide Ordered;
      hide AllGood;
      hide Shape;
      hide Tracks;
      NoneHeld(queue0.items, queue1.items, ns);
    }

    /** The owner pushes what is not held. */
    method DoPush(d: D, now: int, held: set<D>, ghost ns: iset<int>) returns (held': set<D>)
      requires Kept(now, held, ns) && AlwaysIn(cb, ns)
      modifies this, repr
      ensures fresh(repr - old(repr)) && Kept(now, held', ns)
      ensures held' == held + {d}
      ensures indexOffset == old(indexOffset) && refreshed == old(refreshed) && (Aligned() <==> old(Aligned()))
    {
      hide Ordered;
      hide AllGood;
      hide Shape;
      hide In;
      hide Tracks;
      hide Bag;
      hide Spread;
      hide AlwaysIn;
      held' := held + {d};
      if d !in held {
        AlwaysAsked(cb, multiset{d}, now, maxUntil, ns);
        Push(d, now, ns);
      }
    }

    /** Whether a virtual index stands for a position that is in use. */
    method InUse(index: int, ghost now: int) returns (used: bool)
      requires Valid(now)
      ensures used == Names(index)
    {
      hide Ordered;
      hide AllGood;
      if index < 0 {
        return false;
      }
      var (k, pos) := Slot(index);
      return pos < if k == 0 then queue0.size else queue1.size;
    }

    /** The owner updates what is held, by the index last reported; one that names no position fails. */
    method DoUpdate(d: D, now: int, held: set<D>, ghost ns: iset<int>) returns (e: Event<D>)
      requires Kept(now, held, ns) && AlwaysIn(cb, ns)
      modifies this, repr
      ensures fresh(repr - old(repr)) && Kept(now, held, ns)
      ensures e == Quiet || (e == Failed && d in held && !old(Aligned()))
      ensures indexOffset == old(indexOffset) && refreshed == old(refreshed) && (Aligned() <==> old(Aligned()))
    {
      hide Ordered;
      hide AllGood;
      hide Shape;
      hide In;
      hide Tracks;
      hide Bag;
      hide Spread;
      hide AlwaysIn;
      e := Quiet;
      if d in held {
        AlwaysAsked(cb, Held() + multiset{nil}, now, maxUntil, ns);
        IndexIff(d);
        IndexReported(d);
        var used := InUse(reports.index[d], now);
        if !used {
          return Failed;
        }
        Update(reports.index[d], now, ns);
      }
    }

    /** The owner removes what is held, by the index last reported; one that names no position fails. */
    method DoRemove(d: D, now: int, held: set<D>, ghost ns: iset<int>) returns (e: Event<D>, held': set<D>)
      requires Kept(now, held, ns) && AlwaysIn(cb, ns)
      modifies this, repr
      ensures fresh(repr - old(repr)) && Kept(now, held', ns)
      ensures d !in held ==> e == Quiet && held' == held
      ensures d in held && old(Aligned()) ==> e == Event.Removed(d) && held' == held - {d}
      ensures d in held && !old(Aligned()) ==>
        (e == Failed && held' == held) || (e.Removed? && e.d in held && e.d != d && held' == held - {e.d})
      ensures indexOffset == old(indexOffset) && refreshed == old(refreshed) && (Aligned() <==> old(Aligned()))
    {
      hide Ordered;
      hide AllGood;
      hide Shape;
      hide In;
      hide Tracks;
      hide Bag;
      hide Spread;
      hide AlwaysIn;
      e, held' := Quiet, held;
      if d in held {
        ghost var h := Held();
        IndexIff(d);
        IndexReported(d);
        var used := InUse(reports.index[d], now);
        if !used {
          return Failed, held;
        }
        var r := Remove(reports.index[d], now, ns);
        OnceLess(h, Held(), r);
        e, held' := Event.Removed(r), held - {r};
      }
    }

    /** The owner pops. */
    method DoPop(now: int, held: set<D>, ghost ns: iset<int>) returns (e: Event<D>, held': set<D>)
      requires Kept(now, held, ns) && AlwaysIn(cb, ns)
      modifies this, repr
      ensures fresh(repr - old(repr)) && Kept(now, held', ns)
      ensures held == {} ==> e == NonePopped && held' == {}
      ensures held != {} ==> e.Popped? && e.d in held && held' == held - {e.d} && e.priority == cb.priority(e.d, now)
      ensures held != {} ==> forall x :: x in held ==> cb.priority(x, now) <= e.priority
      ensures indexOffset == old(indexOffset) && refreshed == old(refreshed) && (Aligned() <==> old(Aligned()))
    {
      hide Ordered;
      hide AllGood;
      hide Shape;
      hide In;
      hide Tracks;
      hide Bag;
      hide Spread;
      hide AlwaysIn;
      AlwaysAsked(cb, Held(), now, maxUntil, ns);
      ghost var h := Held();
      var r, pri := Pop(now, ns);
      if held == {} {
        assert h == multiset{};
        return NonePopped, {};
      }
      assert h != multiset{};
      OnceLess(h, Held(), r);
      return Popped(r, pri), held - {r};
    }

    /** The owner pops as long as a callback wants more. */
    method DoMultiPop(more: seq<Item<D>> -> bool, now: int, held: set<D>, ghost ns: iset<int>)
      returns (e: Event<D>, held': set<D>)
      requires Kept(now, held, ns) && AlwaysIn(cb, ns)
      modifies this, repr
      ensures fresh(repr - old(repr)) && Kept(now, held', ns)
      ensures e.AllPopped? && HandsOut(cb, more, held, now, e.items, held')
      ensures indexOffset == old(indexOffset) && refreshed == old(refreshed) && (Aligned() <==> old(Aligned()))
    {
      hide Ordered;
      hide AllGood;
      hide Shape;
      hide In;
      hide Tracks;
      hide Bag;
      hide Spread;
      hide AlwaysIn;
      hide Willing;
      hide Descending;
      hide Actual;
      hide NoneAbove;
      AlwaysAsked(cb, Held(), now, maxUntil, ns);
      ghost var h := Held();
      var popped := MultiPop(more, now, ns);
      OnceSplit(h, Held(), popped);
      BelowBoth(cb, popped, queue0.items, queue1.items, now);
      return AllPopped(popped), held - ValuesOf(popped);
    }

    /** The owner refreshes in time. */
    method DoRefresh(now: int, held: set<D>, ghost ns: iset<int>)
      requires Kept(now, held, ns) && AlwaysIn(cb, ns)
      modifies this, repr
      ensures fresh(repr - old(repr)) && Kept(now, held, ns)
      ensures indexOffset == 1 - old(indexOffset) && refreshed == now && (Aligned() <==> old(Aligned()))
    {
      hide Ordered;
      hide AllGood;
      hide Shape;
      hide In;
      hide Tracks;
      hide Bag;
      hide Spread;
      hide AlwaysIn;
      AlwaysAsked(cb, Held(), now, now + period, ns);
      Refresh(now, ns);
    }

    /** The owner resets. */
    method DoReset(now: int, held: set<D>, ghost ns: iset<int>) returns (held': set<D>)
      requires Kept(now, held, ns) && AlwaysIn(cb, ns)
      modifies this, repr
      ensures fresh(repr - old(repr)) && Kept(now, held', ns)
      ensures held' == {} && indexOffset == old(indexOffset) && refreshed == old(refreshed)
      ensures Aligned() <==> indexOffset == 0
    {
      hide Ordered;
      hide AllGood;
      hide Shape;
      hide In;
      hide Tracks;
      hide Bag;
      hide Spread;
      hide AlwaysIn;
      NoneIn<D>(ns);
      Reset(now);
      held' := {};
    }

    /** Time passes, but not beyond the next refresh. */
    method DoWait(dt: nat, now: int, held: set<D>, ghost ns: iset<int>) returns (now': int)
      requires Kept(now, held, ns) && AlwaysIn(cb, ns)
      modifies this, repr
      ensures fresh(repr - old(repr)) && Kept(now', held, ns)
      ensures now' == if now + dt <= refreshed + period then now + dt else now
      ensures indexOffset == old(indexOffset) && refreshed == old(refreshed) && (Aligned() <==> old(Aligned()))
    {
      hide Ordered;
      hide AllGood;
      hide Shape;
      hide In;
      hide Tracks;
      hide Bag;
      hide Spread;
      hide AlwaysIn;
      now' := now;
      if now + dt <= maxUntil - period {
        Wait(now, now + dt);
        now' := now + dt;
      }
    }

    lemma AllFound(now: int, held: set<D>, ns: iset<int>)
      requires Kept(now, held, ns)
      ensures forall d :: d in held ==> (Finds(d) <==> Aligned())
    {
      hide Finds;
      hide Valid;
      hide Tracked;
      forall d | d in held
        ensures Finds(d) <==> Aligned()
      {
        IndexIff(d);
      }
    }

    /** The moment of a run: what is held, the time, when a refresh is due, and the offset. */
    ghost function At(now: int, held: set<D>): (m: Moment<D>)
      reads this
    {
      Moment(held, now, refreshed + period, Places(indexOffset, Aligned()))
    }

    /** One call of a run. */
    method Do(op: Op<D>, now: int, held: set<D>, ghost ns: iset<int>) returns (e: Event<D>, now': int, held': set<D>)
      requires Kept(now, held, ns) && AlwaysIn(cb, ns)
      modifies this, repr
      ensures fresh(repr - old(repr)) && Kept(now', held', ns)
      ensures Happens(cb, period, old(At(now, held)), op, e, At(now', held'))
    {
      hide Kept;
      hide AlwaysIn;
      e, now', held' := Quiet, now, held;
      match op
      case Push(d) => held' := DoPush(d, now, held, ns);
      case Update(d) => e := DoUpdate(d, now, held, ns);
      case Remove(d) => e, held' := DoRemove(d, now, held, ns);
      case Pop => e, held' := DoPop(now, held, ns);
      case MultiPop(more) => e, held' := DoMultiPop(more, now, held, ns);
      case Refresh => DoRefresh(now, held, ns);
      case Reset => held' := DoReset(now, held, ns);
      case Wait(dt) => now' := DoWait(dt, now, held, ns);
    }
  }

  // ---- runs ----

  datatype Op<!D> =
    | Push(d: D) | Update(d: D) | Remove(d: D) | Pop | MultiPop(more: seq<Item<D>> -> bool) | Refresh | Reset
    | Wait(dt: nat)

  /** What comes of a call: items, or nothing, or, for an index that names no position, an end. */
  datatype Event<D> =
    Quiet | Popped(d: D, priority: int) | NonePopped | AllPopped(items: seq<Item<D>>) | Removed(d: D) | Failed

  /** The offset, and whether it says which heap is which. */
  datatype Places = Places(offset: int, aligned: bool)

  datatype Moment<D(==)> = Moment(held: set<D>, now: int, due: int, places: Places)

  function ValuesOf<D>(s: seq<Item<D>>): (ds: set<D>) {
    set x | x in s :: x.value
  }

  /**
   * What MultiPop hands out: each item once, with its actual priority, in descending order, and none
   * left has a higher one; it goes on while the callback wants more and something is left.
   */
  ghost predicate HandsOut<D(!new)>(cb: Callbacks<D>, more: seq<Item<D>> -> bool, held: set<D>, now: int,
                                    xs: seq<Item<D>>, held': set<D>) {
    && ValuesOf(xs) <= held && held' == held - ValuesOf(xs)
    && (forall i, j :: 0 <= i < j < |xs| ==> xs[i].value != xs[j].value)
    && Actual(cb, xs, now) && Descending(xs)
    && (forall x, d :: x in xs && d in held' ==> cb.priority(d, now) <= x.priority)
    && Willing(more, xs, |xs|) && (held' == {} || (xs != [] && !more(xs)))
  }

  /** What each call does to what is held, and what comes of it. */
  ghost predicate Happens<D(!new)>(cb: Callbacks<D>, period: nat, m: Moment<D>, op: Op<D>, e: Event<D>, m': Moment<D>) {
    match op
    case Push(d) => e == Quiet && m' == m.(held := m.held + {d})
    case Update(d) => m' == m && (e == Quiet || (e == Failed && d in m.held && !m.places.aligned))
    case Remove(d) =>
      if d !in m.held then e == Quiet && m' == m
      else if m.places.aligned then e == Event.Removed(d) && m' == m.(held := m.held - {d})
      else (e == Failed && m' == m) || (e.Removed? && e.d in m.held && e.d != d && m' == m.(held := m.held - {e.d}))
    case Pop =>
      if m.held == {} then e == NonePopped && m' == m
      else
        && e.Popped? && e.d in m.held && m' == m.(held := m.held - {e.d}) && e.priority == cb.priority(e.d, m.now)
        && forall x :: x in m.held ==> cb.priority(x, m.now) <= e.priority
    case MultiPop(more) =>
      e.AllPopped? && HandsOut(cb, more, m.held, m.now, e.items, m'.held) && m' == m.(held := m'.held)
    case Refresh => e == Quiet && m' == m.(due := m.now + period, places := After(m.places, op))
    case Reset => e == Quiet && m' == m.(held := {}, places := After(m.places, op))
    case Wait(dt) => e == Quiet && m' == m.(now := if m.now + dt <= m.due then m.now + dt else m.now)
  }

  function After<D>(p: Places, op: Op<D>): (r: Places) {
    match op
    case Refresh => p.(offset := 1 - p.offset)
    case Reset => p.(aligned := p.offset == 0)
    case _ => p
  }

  /** From construction: the offset is 1 and right. */
  function Follow<D>(ops: seq<Op<D>>): (p: Places) {
    if ops == [] then Places(1, true) else After(Follow(ops[..|ops| - 1]), ops[|ops| - 1])
  }

  /** The moments between the calls of a run, which ends early only by a failure. */
  ghost predicate Trace<D(!new)>(cb: Callbacks<D>, period: nat, ops: seq<Op<D>>, ms: seq<Moment<D>>,
                                 es: seq<Event<D>>) {
    && |ms| == |es| + 1 && |es| <= |ops|
    && forall i :: 0 <= i < |es| ==> Happens(cb, period, ms[i], ops[i], es[i], ms[i + 1])
  }

  lemma TraceMore<D(!new)>(cb: Callbacks<D>, period: nat, ops: seq<Op<D>>, ms: seq<Moment<D>>, es: seq<Event<D>>,
                           e: Event<D>, m: Moment<D>)
    requires Trace(cb, period, ops, ms, es) && |es| < |ops| && Happens(cb, period, ms[|es|], ops[|es|], e, m)
    ensures Trace(cb, period, ops, ms + [m], es + [e])
  {
    hide Happens;
  }

  lemma AfterHappens<D(!new)>(cb: Callbacks<D>, period: nat, m: Moment<D>, op: Op<D>, e: Event<D>, m': Moment<D>)
    requires Happens(cb, period, m, op, e, m')
    ensures m'.places == After(m.places, op)
  {}

  /** How often an item has come in, and how often it has gone: popped, removed, or cleared by a reset. */
  ghost function Came<D>(ops: seq<Op<D>>, ms: seq<Moment<D>>, d: D, n: nat): (k: nat)
    requires n <= |ops| && n < |ms|
  {
    if n == 0 then 0 else Came(ops, ms, d, n - 1) + if ops[n - 1] == Op.Push(d) && d !in ms[n - 1].held then 1 else 0
  }

  ghost predicate Takes<D>(e: Event<D>, d: D) {
    ((e.Popped? || e.Removed?) && e.d == d) || (e.AllPopped? && d in ValuesOf(e.items))
  }

  ghost function Went<D>(ops: seq<Op<D>>, ms: seq<Moment<D>>, es: seq<Event<D>>, d: D, n: nat): (k: nat)
    requires n <= |ops| && n <= |es| && n < |ms|
  {
    if n == 0 then 0
    else
      var e := es[n - 1];
      Went(ops, ms, es, d, n - 1) +
      if Takes(e, d) || (ops[n - 1].Reset? && d in ms[n - 1].held) then 1 else 0
  }

  /** None is lost or duplicated: what has come and not gone is held, once. */
  lemma {:induction false} Conserved<D(!new)>(cb: Callbacks<D>, period: nat, ops: seq<Op<D>>, ms: seq<Moment<D>>,
                                              es: seq<Event<D>>, d: D, n: nat)
    requires Trace(cb, period, ops, ms, es) && ms[0].held == {} && n <= |es|
    ensures Came(ops, ms, d, n) == Went(ops, ms, es, d, n) + if d in ms[n].held then 1 else 0
  {
    if n > 0 {
      Conserved(cb, period, ops, ms, es, d, n - 1);
      assert Happens(cb, period, ms[n - 1], ops[n - 1], es[n - 1], ms[n]);
    }
  }

  /** All that the callbacks can ever say lies in the set. */
  ghost predicate AlwaysIn<D(!new)>(cb: Callbacks<D>, ns: iset<int>) {
    (forall d, t :: cb.priority(d, t) in ns) && forall d, from, until :: cb.maxPriority(d, from, until) in ns
  }

  lemma AlwaysAsked<D(!new)>(cb: Callbacks<D>, ds: multiset<D>, now: int, until: int, ns: iset<int>)
    requires AlwaysIn(cb, ns)
    ensures Asked(cb, ds, now, until, ns)
  {}

  /**
   * Any run in which the owner pushes nothing that is held. The trace says what is held after every
   * call and what came of it: pops give the item of the highest priority, and removals by the index
   * last reported give the item asked for as long as the offset is right. The run ends early only by
   * an index that names no position, which takes a wrong offset. At the end the indices last reported
   * for the items held all name their items if the offset is right, and otherwise none does.
   */
  method Run<D(!new, ==)>(cb: Callbacks<D>, period: nat, nil: D, start: int, ops: seq<Op<D>>, ghost ns: iset<int>)
    returns (q: Queue<D>, now: int, held: set<D>, es: seq<Event<D>>, ghost ms: seq<Moment<D>>)
    requires cb.Valid() && Spread(ns) && AlwaysIn(cb, ns)
    ensures q.Kept(now, held, ns) && Trace(cb, period, ops, ms, es) && ms[|es|] == q.At(now, held)
    ensures ms[0] == Moment({}, start, start + period, Places(1, true))
    ensures |es| == |ops| || (es != [] && es[|es| - 1] == Failed && !Follow(ops[..|es|]).aligned)
    ensures Places(q.indexOffset, q.Aligned()) == Follow(ops[..|es|])
    ensures forall d :: d in held ==> (q.Finds(d) <==> Follow(ops[..|es|]).aligned)
  {
    hide Spread;
    hide AlwaysIn;
    hide Queue.Kept;
    hide Queue.Valid;
    hide Queue.Held;
    hide Queue.Tracked;
    hide Queue.Finds;
    hide Trace;
    q := new Queue(cb, period, nil, start);
    now, held, es := start, {}, [];
    ms := [q.At(now, held)];
    q.StartKept(now, ns);
    TraceStart(cb, period, ops, ms[0]);
    while |es| < |ops|
      invariant fresh(q) && fresh(q.repr) && q.cb == cb && q.period == period && |ms| == |es| + 1 && |es| <= |ops|
      invariant q.Kept(now, held, ns) && Places(q.indexOffset, q.Aligned()) == Follow(ops[..|es|])
      invariant Trace(cb, period, ops, ms, es) && ms[|es|] == q.At(now, held)
      invariant ms[0] == Moment({}, start, start + period, Places(1, true))
      decreases |ops| - |es|
    {
      var i := |es|;
      ghost var m := q.At(now, held);
      var e;
      e, now, held := q.Do(ops[i], now, held, ns);
      TraceMore(cb, period, ops, ms, es, e, q.At(now, held));
      AfterHappens(cb, period, m, ops[i], e, q.At(now, held));
      assert ops[..i + 1][..i] == ops[..i];
      es, ms := es + [e], ms + [q.At(now, held)];
      if e == Failed {
        FailedAside(cb, period, m, ops[i], q.At(now, held));
        break;
      }
    }
    q.AllFound(now, held, ns);
  }

  lemma TraceStart<D(!new)>(cb: Callbacks<D>, period: nat, ops: seq<Op<D>>, m: Moment<D>)
    ensures Trace(cb, period, ops, [m], [])
  {}

  lemma FailedAside<D(!new)>(cb: Callbacks<D>, period: nat, m: Moment<D>, op: Op<D>, m': Moment<D>)
    requires Happens(cb, period, m, op, Failed, m')
    ensures !m'.places.aligned
  {}

  lemma NoneHeld<D(!new)>(s: seq<Item<D>>, t: seq<Item<D>>, ns: iset<int>)
    requires Bag(s) + Bag(t) == multiset{}
    ensures In(s, ns) && In(t, ns)
  {
    BagSize(s);
    BagSize(t);
    assert |Bag(s) + Bag(t)| == |Bag(s)| + |Bag(t)|;
  }

  lemma BelowBag<D(!new)>(cb: Callbacks<D>, popped: seq<Item<D>>, x: Item<D>, s: seq<Item<D>>, now: int)
    requires NoneAbove(cb, popped, s, now) && x in popped
    ensures forall d :: d in Bag(s) ==> cb.priority(d, now) <= x.priority
  {
    forall d | d in Bag(s)
      ensures cb.priority(d, now) <= x.priority
    {
      BagMember(s, d);
      var i :| 0 <= i < |s| && s[i].value == d;
      assert s[i] in s;
    }
  }

  lemma BelowBoth<D(!new)>(cb: Callbacks<D>, popped: seq<Item<D>>, s: seq<Item<D>>, t: seq<Item<D>>, now: int)
    requires NoneAbove(cb, popped, s, now) && NoneAbove(cb, popped, t, now)
    ensures forall x, d :: x in popped && d in Bag(s) + Bag(t) ==> cb.priority(d, now) <= x.priority
  {
    hide Bag;
    forall x, d | x in popped && d in Bag(s) + Bag(t)
      ensures cb.priority(d, now) <= x.priority
    {
      BelowBag(cb, popped, x, s, now);
      BelowBag(cb, popped, x, t, now);
    }
  }

  /** Of items held once each, those handed out are different, and the others are left. */
  lemma OnceSplit<D(!new)>(h: multiset<D>, rest: multiset<D>, xs: seq<Item<D>>)
    requires Once(h) && h == rest + Bag(xs)
    ensures Once(rest) && forall d :: d in rest <==> d in h && d !in ValuesOf(xs)
    ensures forall d :: d in ValuesOf(xs) ==> d in h
    ensures forall i, j :: 0 <= i < j < |xs| ==> xs[i].value != xs[j].value
  {
    hide Bag;
    forall d
      ensures d in Bag(xs) <==> d in ValuesOf(xs)
    {
      BagValue(xs, d);
    }
    assert forall d :: h[d] == rest[d] + Bag(xs)[d];
    OnceApart(xs);
  }

  lemma BagValue<D(!new)>(xs: seq<Item<D>>, d: D)
    ensures d in Bag(xs) <==> d in ValuesOf(xs)
  {
    hide Bag;
    BagMember(xs, d);
    if d in Bag(xs) {
      var i :| 0 <= i < |xs| && xs[i].value == d;
      assert xs[i] in xs;
    }
  }

  lemma {:induction false} OnceApart<D(!new)>(xs: seq<Item<D>>)
    requires forall d :: Bag(xs)[d] <= 1
    ensures forall i, j :: 0 <= i < j < |xs| ==> xs[i].value != xs[j].value
    decreases |xs|
  {
    hide Bag;
    if xs != [] {
      var r, x := xs[..|xs| - 1], xs[|xs| - 1];
      assert xs == r + [x];
      BagPush(r, x);
      forall d
        ensures Bag(r)[d] <= 1
      {
        assert Bag(xs)[d] <= 1;
      }
      OnceApart(r);
      forall i | 0 <= i < |r|
        ensures r[i].value != x.value
      {
        BagMember(r, r[i].value);
        assert Bag(xs)[x.value] <= 1;
      }
    }
  }

  lemma OneHeld<D>(s: seq<Item<D>>, d: D)
    requires Bag(s) == multiset{d}
    ensures |s| == 1
  {
    BagSize(s);
  }

  lemma {:induction false} BagSize<D>(s: seq<Item<D>>)
    ensures |Bag(s)| == |s|
    decreases |s|
  {
    if s == [] {
      BagNone<D>();
    } else {
      var r, x := s[..|s| - 1], s[|s| - 1];
      assert s == r + [x];
      BagPush(r, x);
      BagSize(r);
    }
  }

  /**
   * A reset right after construction leaves the offset at 1: the index then reported for an item
   * pushed into the second heap is read as a position of the first, which is empty.
   */
  method ResetMisnames() returns (q: Queue<int>)
    ensures q.Valid(0) && q.Tracked() && q.Held() == multiset{7} && 7 in q.reports.index && q.reports.index[7] == 1
    ensures q.Slot(1) == (0, 0) && q.queue0.items == [] && !q.Names(q.reports.index[7])
  {
    hide Queue.Shape;
    hide Ordered;
    hide AllGood;
    hide Tracks;
    hide Bag;
    var cb := Callbacks((d: int, t: int) => 0, (d: int, a: int, b: int) => 0);
    q := new Queue(cb, 1, 0, 0);
    q.Reset(0);
    BagNone<int>();
    q.Push(7, 0, iset{0});
    assert q.Held() == Bag(q.queue1.items);
    OneHeld(q.queue1.items, 7);
    q.IndexMisnames(7);
  }

  /** Where a held value is. */
  lemma Locate<D(!new)>(side: Side, s: seq<Item<D>>, ix: map<D, int>, d: D) returns (i: nat)
    requires !side.Silent? && Reported(side, s, ix) && d in Bag(s)
    ensures i < |s| && s[i].value == d && d in ix && ix[d] == SetIndex(side, i)
  {
    BagMember(s, d);
    i :| 0 <= i < |s| && s[i].value == d;
  }

  /** The place a virtual index stands for, given the offset. */
  lemma SlotOf(side: Side, i: nat, offset: nat)
    requires !side.Silent? && offset < 2
    ensures var v := SetIndex(side, i);
      v >= 0 && v / 2 == i && (v % 2 + offset) % 2 == if side == (if offset == 0 then Zero else One) then 0 else 1
  {}

  lemma TracksLess<D(!new)>(a: Side, s: seq<Item<D>>, b: Side, t: seq<Item<D>>, ix: map<D, int>, t': seq<Item<D>>,
                            ix': map<D, int>, x: Item<D>)
    requires TwoSides(a, b) && Shrunk(b, t, ix, t', ix', x)
    ensures Tracks(a, s, b, t, ix) ==> Tracks(a, s, b, t', ix')
    ensures Tracks(b, t, a, s, ix) ==> Tracks(b, t', a, s, ix')
  {
    hide Shrunk;
    hide Reported;
    if Tracks(a, s, b, t, ix) {
      TracksShrunk(a, s, b, t, ix, t', ix', x);
    }
  }

  lemma GrownBag<D(!new)>(side: Side, s: seq<Item<D>>, ix: map<D, int>, s': seq<Item<D>>, ix': map<D, int>, x: Item<D>)
    requires Grown(side, s, ix, s', ix', x)
    ensures Bag(s') == Bag(s) + multiset{x.value} && |s'| == |s| + 1 && (side.Silent? ==> ix' == ix)
  {}
}
