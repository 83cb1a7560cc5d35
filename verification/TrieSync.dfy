/**
 * The state sync scheduler (proton/trie/sync.go): requests wait for the children they refer to,
 * and completed ones are buffered in an order that may be written out prefix by prefix.
 *
 * What a hash stands for is a parameter, as are the entries a leaf callback asks for below a node.
 * Kind and callback belong to a request: the first one for a hash decides how it is expanded.
 */
module TrieSync {
  import opened Bytes
  import opened TrieDatabase

  /** A raw entry is stored as it is; a trie node is expanded, under the callback of its request. */
  datatype Kind = Raw | Node(callback: nat)

  datatype Entry<K> = Entry(hash: K, kind: Kind)

  /** The same kind for every hash. */
  function Nodes<K>(hs: seq<K>, callback: nat): (es: seq<Entry<K>>)
    ensures |es| == |hs| && forall i :: 0 <= i < |hs| ==> es[i] == Entry(hs[i], Node(callback))
  {
    seq(|hs|, i requires 0 <= i < |hs| => Entry(hs[i], Node(callback)))
  }

  lemma NodesMember<K>(hs: seq<K>, callback: nat, x: Entry<K>)
    ensures x in Nodes(hs, callback) <==> x.hash in hs && x.kind == Node(callback)
  {
    if x.hash in hs && x.kind == Node(callback) {
      var i :| 0 <= i < |hs| && hs[i] == x.hash;
      assert Nodes(hs, callback)[i] == x;
    }
  }

  /**
   * What the hashes stand for: contents, whether there are any that hash to it and whether they
   * decode to a node, hash children, and the entries that a callback asks for at the leaves.
   */
  datatype Plan<!K(!new, ==)> = Plan(
    blob: K -> seq<byte>, genuine: K -> bool, decodes: K -> bool, kids: K -> seq<K>,
    subs: (K, nat) -> seq<Entry<K>>, rank: K -> nat, emptyRoot: K, emptyState: K)
  {
    /** Everything that is asked for when an entry is expanded. */
    function Refs(e: Entry<K>): (xs: seq<Entry<K>>) {
      match e.kind
      case Raw => []
      case Node(cb) => subs(e.hash, cb) + Nodes(kids(e.hash), cb)
    }

    /** An entry that stands for nothing and is not asked for. */
    predicate Void(e: Entry<K>) {
      e.hash == if e.kind.Raw? then emptyState else emptyRoot
    }

    /** Expanding the hash as the given kind asks for all that the entry refers to. */
    ghost predicate Covered(e: Entry<K>, kind: Kind) {
      forall x :: x in Refs(e) ==> x in Refs(Entry(e.hash, kind))
    }

    /** References lead down, and the empty root is no node. */
    ghost predicate Valid() {
      (forall e, x :: x in Refs(e) ==> rank(x.hash) < rank(e.hash)) && !decodes(emptyRoot)
    }
  }

  datatype Request<K(==)> = Request(data: Option<seq<byte>>, kind: Kind, parents: seq<K>, deps: int)

  type Requests<K(==)> = map<K, Request<K>>

  /**
   * The scheduler: pending requests with a list of their hashes, the database, the write buffer, and
   * the kind under which everything that is there was expanded.
   */
  datatype State<K(==)> = State(
    reqs: Requests<K>, live: seq<K>, db: map<K, seq<byte>>, batch: map<K, seq<byte>>, order: seq<K>,
    kinds: map<K, Kind>)
  {
    predicate Known(h: K) {
      h in db || h in batch
    }
  }

  // ---- links ----

  /** How often a pending request names h as a parent. */
  function LinkOf<K(==)>(reqs: Requests<K>, h: K): (f: K -> int) {
    c => if c in reqs then multiset(reqs[c].parents)[h] else 0
  }

  /** The pending child links of h. */
  function Links<K(==)>(reqs: Requests<K>, live: seq<K>, h: K): (n: int) {
    Sum(LinkOf(reqs, h), live)
  }

  lemma LinksSame<K(!new)>(reqs: Requests<K>, reqs': Requests<K>, live: seq<K>, h: K)
    requires forall c :: c in live ==> c in reqs && c in reqs' && reqs'[c].parents == reqs[c].parents
    ensures Links(reqs', live, h) == Links(reqs, live, h)
  {
    SumSame(LinkOf(reqs, h), LinkOf(reqs', h), live);
  }

  lemma LinksDrop<K(!new)>(reqs: Requests<K>, live: seq<K>, i: nat, h: K)
    requires i < |live| && live[i] in reqs
    ensures Links(reqs, Drop(live, i), h) == Links(reqs, live, h) - multiset(reqs[live[i]].parents)[h]
  {
    SumDrop(LinkOf(reqs, h), live, i);
  }

  lemma NoLinks<K(!new)>(reqs: Requests<K>, live: seq<K>, h: K)
    requires forall c :: c in live ==> c in reqs
    ensures Links(reqs, live, h) >= 0
    ensures Links(reqs, live, h) == 0 <==> forall c :: c in live ==> h !in reqs[c].parents
  {
    SumZero(LinkOf(reqs, h), live);
    forall c | c in live
      ensures LinkOf(reqs, h)(c) == 0 <==> h !in reqs[c].parents
    {}
  }

  lemma LinksAppend<K(!new)>(reqs: Requests<K>, live: seq<K>, c: K, r: Request<K>, h: K)
    requires c !in live && c !in reqs
    ensures Links(reqs[c := r], live + [c], h) == Links(reqs, live, h) + multiset(r.parents)[h]
  {
    var f := LinkOf(reqs[c := r], h);
    SumConcat(f, live, [c]);
    assert Sum(f, [c]) == f(c);
    SumSame(LinkOf(reqs, h), f, live);
  }

  lemma LinksUpdate<K(!new)>(reqs: Requests<K>, live: seq<K>, i: nat, r: Request<K>, h: K)
    requires Distinct(live) && i < |live| && live[i] in reqs
    ensures Links(reqs[live[i] := r], live, h) ==
      Links(reqs, live, h) - multiset(reqs[live[i]].parents)[h] + multiset(r.parents)[h]
  {
    var (f, g) := (LinkOf(reqs, h), LinkOf(reqs[live[i] := r], h));
    DropMembers(live, i);
    SumDrop(f, live, i);
    SumDrop(g, live, i);
    SumSame(f, g, Drop(live, i));
  }

  // ---- the invariant ----

  /** Only a trie node that does not decode is asked for although the database has something under its hash. */
  ghost predicate Askable<K(!new)>(p: Plan<K>, s: State<K>, e: Entry<K>) {
    e.hash !in s.batch && (e.hash in s.db ==> e.kind.Node? && !p.decodes(e.hash))
  }

  ghost predicate Enumerated<K(!new)>(p: Plan<K>, s: State<K>) {
    && Distinct(s.live) && (forall h :: h in s.live <==> h in s.reqs)
    && (forall h :: h in s.order <==> h in s.batch)
    && (forall h :: h in s.kinds <==> s.Known(h))
    && (forall h :: h in s.reqs ==> Askable(p, s, Entry(h, s.reqs[h].kind)))
  }

  /** Contents are those the hashes stand for, and received nodes decode. */
  ghost predicate Faithful<K(!new)>(p: Plan<K>, s: State<K>) {
    && (forall h :: h in s.db ==> s.db[h] == p.blob(h) && p.genuine(h))
    && (forall h :: h in s.batch ==> s.batch[h] == p.blob(h) && p.genuine(h))
    && (forall h :: h in s.reqs && s.reqs[h].data.Some? ==>
          s.reqs[h].data.value == p.blob(h) && p.genuine(h) && (s.reqs[h].kind.Node? ==> p.decodes(h)))
  }

  /** The counter of a request is the number of its pending child links, plus those still to be settled. */
  ghost predicate DepsCounted<K(!new)>(s: State<K>, owed: multiset<K>) {
    forall h :: h in s.reqs ==> s.reqs[h].deps == Links(s.reqs, s.live, h) + owed[h]
  }

  /** Parents are pending, have been received, and lie above. */
  ghost predicate Upward<K(!new)>(p: Plan<K>, s: State<K>) {
    forall c, h :: c in s.reqs && h in s.reqs[c].parents ==>
      h in s.reqs && s.reqs[h].data.Some? && p.rank(c) < p.rank(h)
  }

  ghost predicate Present<K(!new)>(p: Plan<K>, s: State<K>, x: Entry<K>) {
    p.Void(x) || s.Known(x.hash)
  }

  /** All that a pending request refers to, as it will be or has been expanded. */
  function RefsOf<K(!new, ==)>(p: Plan<K>, s: State<K>, h: K): (xs: seq<Entry<K>>)
    requires h in s.reqs
  {
    p.Refs(Entry(h, s.reqs[h].kind))
  }

  /** Whatever a received node refers to is there, or requested on its behalf, or about to be. */
  ghost predicate Awaited<K(!new)>(p: Plan<K>, s: State<K>, cur: K, todo: seq<Entry<K>>) {
    forall h, x :: h in s.reqs && s.reqs[h].data.Some? && x in RefsOf(p, s, h) ==>
      Present(p, s, x) || (x.hash in s.reqs && h in s.reqs[x.hash].parents) || (h == cur && x in todo)
  }

  /** The buffer may be written from the front. */
  ghost predicate Ordered<K(!new)>(p: Plan<K>, s: State<K>) {
    forall i, x ::
      0 <= i < |s.order| && s.order[i] in s.kinds && x in p.Refs(Entry(s.order[i], s.kinds[s.order[i]])) ==>
      p.Void(x) || x.hash in s.db || x.hash in s.order[..i]
  }

  /** The database is closed under what its entries refer to, each as it was expanded. */
  ghost predicate ClosedDb<K(!new)>(p: Plan<K>, kinds: map<K, Kind>, db: map<K, seq<byte>>) {
    forall h, x :: h in db && h in kinds && x in p.Refs(Entry(h, kinds[h])) ==> p.Void(x) || x.hash in db
  }

  ghost predicate SyncInv<K(!new)>(p: Plan<K>, s: State<K>, owed: multiset<K>, cur: K, todo: seq<Entry<K>>) {
    && p.Valid() && Enumerated(p, s) && Faithful(p, s) && DepsCounted(s, owed) && Upward(p, s)
    && Awaited(p, s, cur, todo) && Ordered(p, s) && ClosedDb(p, s.kinds, s.db)
  }

  // ---- completing a request ----

  /** commit, before the parents are told. */
  function Completed<K(==)>(s: State<K>, i: nat): (s': State<K>)
    requires i < |s.live| && s.live[i] in s.reqs && s.reqs[s.live[i]].data.Some?
  {
    var h := s.live[i];
    State(s.reqs - {h}, Drop(s.live, i), s.db, s.batch[h := s.reqs[h].data.value], s.order + [h],
      s.kinds[h := s.reqs[h].kind])
  }

  lemma CompleteInv<K(!new)>(p: Plan<K>, s: State<K>, owed: multiset<K>, i: nat, cur: K)
    requires SyncInv(p, s, owed, cur, []) && i < |s.live| && s.live[i] in s.reqs && s.reqs[s.live[i]].data.Some?
    requires Links(s.reqs, s.live, s.live[i]) == 0
    ensures SyncInv(p, Completed(s, i), owed + multiset(s.reqs[s.live[i]].parents), cur, [])
  {
    hide Links;
    hide Distinct;
    hide Ordered;
    hide ClosedDb;
    CompleteListed(p, s, i);
    CompleteAlone(p, s, i);
    CompleteCounted(p, s, owed, i);
    CompleteOrdered(p, s, i, cur);
    CompleteRest(p, s, i, cur);
    hide Enumerated;
    hide Faithful;
    hide Awaited;
    hide Upward;
    hide DepsCounted;
    hide Completed;
  }

  /** Nobody names a request without links as a parent. */
  lemma CompleteAlone<K(!new)>(p: Plan<K>, s: State<K>, i: nat)
    requires Enumerated(p, s) && i < |s.live| && Links(s.reqs, s.live, s.live[i]) == 0
    ensures forall c :: c in s.reqs ==> s.live[i] !in s.reqs[c].parents
    ensures forall c :: c in s.live ==> c in s.reqs && s.live[i] !in s.reqs[c].parents
  {
    hide Links;
    hide Distinct;
    hide Askable;
    NoLinks(s.reqs, s.live, s.live[i]);
  }

  lemma CompleteListed<K(!new)>(p: Plan<K>, s: State<K>, i: nat)
    requires Enumerated(p, s) && Faithful(p, s) && ClosedDb(p, s.kinds, s.db)
    requires i < |s.live| && s.live[i] in s.reqs && s.reqs[s.live[i]].data.Some?
    ensures var s' := Completed(s, i); Enumerated(p, s') && Faithful(p, s') && ClosedDb(p, s'.kinds, s'.db)
  {
    hide Distinct;
    NotStored(p, s, s.live[i]);
    CompleteEnumerated(p, s, i);
    hide Enumerated;
    hide Askable;
  }

  lemma NotStored<K(!new)>(p: Plan<K>, s: State<K>, h: K)
    requires Enumerated(p, s) && Faithful(p, s) && h in s.reqs && s.reqs[h].data.Some?
    ensures h !in s.db && h !in s.batch && h !in s.kinds
  {
    hide Distinct;
  }

  lemma CompleteEnumerated<K(!new)>(p: Plan<K>, s: State<K>, i: nat)
    requires Enumerated(p, s) && i < |s.live| && s.live[i] in s.reqs && s.reqs[s.live[i]].data.Some?
    ensures Enumerated(p, Completed(s, i))
  {
    DropMembers(s.live, i);
    hide Distinct;
    var (h, s') := (s.live[i], Completed(s, i));
    forall x | x in s'.reqs
      ensures Askable(p, s', Entry(x, s'.reqs[x].kind))
    {
      assert Askable(p, s, Entry(x, s.reqs[x].kind));
    }
    hide Askable;
  }

  lemma CompleteRest<K(!new)>(p: Plan<K>, s: State<K>, i: nat, cur: K)
    requires Upward(p, s) && Awaited(p, s, cur, []) && i < |s.live| && s.live[i] in s.reqs
    requires s.reqs[s.live[i]].data.Some?
    requires forall c :: c in s.reqs ==> s.live[i] !in s.reqs[c].parents
    ensures Upward(p, Completed(s, i)) && Awaited(p, Completed(s, i), cur, [])
  {}

  lemma CompleteCounted<K(!new)>(p: Plan<K>, s: State<K>, owed: multiset<K>, i: nat)
    requires Enumerated(p, s) && DepsCounted(s, owed) && i < |s.live| && s.live[i] in s.reqs
    requires s.reqs[s.live[i]].data.Some?
    ensures DepsCounted(Completed(s, i), owed + multiset(s.reqs[s.live[i]].parents))
  {
    hide Links;
    var h := s.live[i];
    var s' := Completed(s, i);
    DropMembers(s.live, i);
    hide Distinct;
    forall x | x in s'.reqs
      ensures s'.reqs[x].deps == Links(s'.reqs, s'.live, x) + (owed + multiset(s.reqs[h].parents))[x]
    {
      LinksDrop(s.reqs, s.live, i, x);
      LinksSame(s.reqs, s'.reqs, s'.live, x);
    }
  }

  lemma CompleteOrdered<K(!new)>(p: Plan<K>, s: State<K>, i: nat, cur: K)
    requires Enumerated(p, s) && Faithful(p, s) && Awaited(p, s, cur, []) && Ordered(p, s)
    requires i < |s.live| && s.live[i] in s.reqs && s.reqs[s.live[i]].data.Some?
    requires forall c :: c in s.reqs ==> s.live[i] !in s.reqs[c].parents
    ensures Ordered(p, Completed(s, i))
  {
    var h := s.live[i];
    NotStored(p, s, h);
    BatchIn(p, s);
    hide Enumerated;
    hide Faithful;
    var (order, kinds) := (s.order + [h], s.kinds[h := s.reqs[h].kind]);
    forall j, x | 0 <= j < |order| && order[j] in kinds && x in p.Refs(Entry(order[j], kinds[order[j]]))
      ensures p.Void(x) || x.hash in s.db || x.hash in order[..j]
    {
      if j < |s.order| {
        assert order[j] == s.order[j] && order[j] != h && order[..j] == s.order[..j];
      } else {
        assert order[..j] == s.order && x in RefsOf(p, s, h);
        assert Present(p, s, x);
      }
    }
  }

  ghost predicate SameShape<K(!new)>(reqs: Requests<K>, reqs': Requests<K>) {
    && reqs'.Keys == reqs.Keys
    && forall h :: h in reqs ==>
      reqs'[h].parents == reqs[h].parents && reqs'[h].kind == reqs[h].kind && reqs'[h].data == reqs[h].data
  }

  /** Counters may move together with what is owed. */
  lemma Retune<K(!new)>(p: Plan<K>, s: State<K>, reqs': Requests<K>, owed: multiset<K>, owed': multiset<K>, cur: K,
                        todo: seq<Entry<K>>)
    requires SyncInv(p, s, owed, cur, todo) && SameShape(s.reqs, reqs')
    requires forall h :: h in s.reqs ==> reqs'[h].deps - owed'[h] == s.reqs[h].deps - owed[h]
    ensures SyncInv(p, s.(reqs := reqs'), owed', cur, todo)
  {
    hide Links;
    hide Distinct;
    hide Ordered;
    hide ClosedDb;
    hide Upward;
    hide Awaited;
    hide Faithful;
    RetuneRest(p, s, reqs', cur, todo);
    RetuneListed(p, s, reqs');
    RetuneOrdered(p, s, reqs');
    LiveIn(p, s);
    hide Enumerated;
    forall x | x in s.reqs
      ensures Links(reqs', s.live, x) == Links(s.reqs, s.live, x)
    {
      LinksSame(s.reqs, reqs', s.live, x);
    }
  }

  lemma RetuneRest<K(!new)>(p: Plan<K>, s: State<K>, reqs': Requests<K>, cur: K, todo: seq<Entry<K>>)
    requires SameShape(s.reqs, reqs') && Faithful(p, s) && Upward(p, s) && Awaited(p, s, cur, todo)
    ensures var s' := s.(reqs := reqs'); Faithful(p, s') && Upward(p, s') && Awaited(p, s', cur, todo)
  {
    RetuneAwaited(p, s, reqs', cur, todo);
    hide Awaited;
  }

  lemma RetuneAwaited<K(!new)>(p: Plan<K>, s: State<K>, reqs': Requests<K>, cur: K, todo: seq<Entry<K>>)
    requires SameShape(s.reqs, reqs') && Awaited(p, s, cur, todo)
    ensures Awaited(p, s.(reqs := reqs'), cur, todo)
  {
    var s' := s.(reqs := reqs');
    forall h, x | h in s'.reqs && s'.reqs[h].data.Some? && x in RefsOf(p, s', h)
      ensures Present(p, s', x) || (x.hash in s'.reqs && h in s'.reqs[x.hash].parents) || (h == cur && x in todo)
    {
      assert RefsOf(p, s', h) == RefsOf(p, s, h);
      assert Present(p, s', x) == Present(p, s, x);
    }
  }

  lemma RetuneListed<K(!new)>(p: Plan<K>, s: State<K>, reqs': Requests<K>)
    requires SameShape(s.reqs, reqs') && Enumerated(p, s)
    ensures Enumerated(p, s.(reqs := reqs'))
  {
    hide Distinct;
  }

  lemma RetuneOrdered<K(!new)>(p: Plan<K>, s: State<K>, reqs': Requests<K>)
    requires Ordered(p, s)
    ensures Ordered(p, s.(reqs := reqs'))
  {}

  /** One parent is told. */
  function Told<K(==)>(reqs: Requests<K>, h: K): (r: Requests<K>)
    requires h in reqs
  {
    reqs[h := reqs[h].(deps := reqs[h].deps - 1)]
  }

  lemma TellInv<K(!new)>(p: Plan<K>, s: State<K>, owed: multiset<K>, h: K, cur: K)
    requires SyncInv(p, s, owed, cur, []) && h in s.reqs && owed[h] > 0
    ensures SyncInv(p, s.(reqs := Told(s.reqs, h)), owed - multiset{h}, cur, [])
    ensures s.reqs[h].deps > 0
  {
    hide Links;
    hide Distinct;
    hide Upward;
    hide Awaited;
    hide Faithful;
    hide Ordered;
    NoLinks(s.reqs, s.live, h);
    Retune(p, s, Told(s.reqs, h), owed, owed - multiset{h}, cur, []);
  }

  // ---- making requests ----

  /** schedule: a new request, or one more parent for a pending one, whose kind stays. */
  function Scheduled<K(==)>(s: State<K>, e: Entry<K>, parents: seq<K>): (s': State<K>) {
    var c := e.hash;
    if c in s.reqs then s.(reqs := s.reqs[c := s.reqs[c].(parents := s.reqs[c].parents + parents)])
    else s.(reqs := s.reqs[c := Request(None, e.kind, parents, 0)], live := s.live + [c])
  }

  lemma ScheduleLinks<K(!new)>(p: Plan<K>, s: State<K>, e: Entry<K>, parents: seq<K>, h: K)
    requires Enumerated(p, s)
    ensures
      var s' := Scheduled(s, e, parents);
      Links(s'.reqs, s'.live, h) == Links(s.reqs, s.live, h) + multiset(parents)[h]
  {
    hide Links;
    hide Distinct;
    var c := e.hash;
    if c in s.reqs {
      var i :| 0 <= i < |s.live| && s.live[i] == c;
      var r := s.reqs[c].(parents := s.reqs[c].parents + parents);
      LinksUpdate(s.reqs, s.live, i, r, h);
    } else {
      LinksAppend(s.reqs, s.live, c, Request(None, e.kind, parents, 0), h);
    }
  }

  /** A request for a child the current node waits for. */
  lemma ScheduleInv<K(!new)>(p: Plan<K>, s: State<K>, owed: multiset<K>, e: Entry<K>, cur: K, todo: seq<Entry<K>>)
    requires SyncInv(p, s, owed, cur, todo) && todo != [] && todo[0] == e && Askable(p, s, e)
    requires owed[cur] > 0 && cur in s.reqs && s.reqs[cur].data.Some? && p.rank(e.hash) < p.rank(cur)
    requires e.hash !in s.reqs ==> owed[e.hash] == 0
    ensures SyncInv(p, Scheduled(s, e, [cur]), owed - multiset{cur}, cur, todo[1..])
  {
    hide Links;
    hide Distinct;
    hide Scheduled;
    hide Enumerated;
    hide Upward;
    hide Awaited;
    hide Faithful;
    hide Askable;
    var s' := Scheduled(s, e, [cur]);
    ScheduleSame(s, e, [cur]);
    forall h | h in s'.reqs
      ensures s'.reqs[h].deps == Links(s'.reqs, s'.live, h) + (owed - multiset{cur})[h]
    {
      ScheduleLinks(p, s, e, [cur], h);
      assert multiset([cur])[h] == if h == cur then 1 else 0;
      if h !in s.reqs {
        Unheard(p, s, h);
      }
    }
    assert forall x :: x in todo ==> x == e || x in todo[1..];
    ScheduleRest(p, s, e, [cur], cur, todo, todo[1..]);
    ScheduleOrdered(p, s, e, [cur]);
  }

  /** Nobody waits on behalf of a hash that is not pending. */
  lemma Unheard<K(!new)>(p: Plan<K>, s: State<K>, h: K)
    requires Enumerated(p, s) && Upward(p, s) && h !in s.reqs
    ensures Links(s.reqs, s.live, h) == 0
  {
    hide Links;
    NoLinks(s.reqs, s.live, h);
  }

  lemma ScheduleOrdered<K(!new)>(p: Plan<K>, s: State<K>, e: Entry<K>, ps: seq<K>)
    requires Ordered(p, s) && ClosedDb(p, s.kinds, s.db)
    ensures var s' := Scheduled(s, e, ps); Ordered(p, s') && ClosedDb(p, s'.kinds, s'.db)
  {}

  lemma ScheduleRest<K(!new)>(p: Plan<K>, s: State<K>, e: Entry<K>, ps: seq<K>, cur: K, todo: seq<Entry<K>>,
                              todo': seq<Entry<K>>)
    requires Enumerated(p, s) && Faithful(p, s) && Upward(p, s) && Awaited(p, s, cur, todo) && Askable(p, s, e)
    requires forall h :: h in ps ==> h in s.reqs && s.reqs[h].data.Some? && p.rank(e.hash) < p.rank(h)
    requires forall x :: x in todo ==> x in todo' || (x == e && cur in ps)
    ensures var s' := Scheduled(s, e, ps);
      Enumerated(p, s') && Faithful(p, s') && Upward(p, s') && Awaited(p, s', cur, todo')
  {
    hide Scheduled;
    hide Distinct;
    hide Awaited;
    hide Upward;
    ScheduleSame(s, e, ps);
    ScheduleListed(s, e, ps);
    ScheduleUpward(p, s, e, ps);
    ScheduleAwaited(p, s, e, ps, cur, todo, todo');
  }

  lemma ScheduleUpward<K(!new)>(p: Plan<K>, s: State<K>, e: Entry<K>, ps: seq<K>)
    requires Upward(p, s) && forall h :: h in ps ==> h in s.reqs && s.reqs[h].data.Some? && p.rank(e.hash) < p.rank(h)
    ensures Upward(p, Scheduled(s, e, ps))
  {
    hide Scheduled;
    ScheduleSame(s, e, ps);
  }

  lemma ScheduleAwaited<K(!new)>(p: Plan<K>, s: State<K>, e: Entry<K>, ps: seq<K>, cur: K, todo: seq<Entry<K>>,
                                 todo': seq<Entry<K>>)
    requires Awaited(p, s, cur, todo) && forall x :: x in todo ==> x in todo' || (x == e && cur in ps)
    ensures Awaited(p, Scheduled(s, e, ps), cur, todo')
  {
    hide Scheduled;
    ScheduleSame(s, e, ps);
    var s' := Scheduled(s, e, ps);
    forall h, x | h in s'.reqs && s'.reqs[h].data.Some? && x in RefsOf(p, s', h)
      ensures Present(p, s', x) || (x.hash in s'.reqs && h in s'.reqs[x.hash].parents) || (h == cur && x in todo')
    {
      assert h in s.reqs && s.reqs[h].data.Some? && x in RefsOf(p, s, h);
    }
  }

  /** What scheduling leaves alone. */
  lemma ScheduleSame<K(!new)>(s: State<K>, e: Entry<K>, parents: seq<K>)
    ensures
      var (c, s') := (e.hash, Scheduled(s, e, parents));
      && s'.db == s.db && s'.batch == s.batch && s'.order == s.order && s'.kinds == s.kinds
      && s'.reqs.Keys == s.reqs.Keys + {c}
      && (forall h :: h in s.reqs ==>
        s'.reqs[h].data == s.reqs[h].data && s'.reqs[h].kind == s.reqs[h].kind && s'.reqs[h].deps == s.reqs[h].deps)
      && (forall h :: h in s.reqs && h != c ==> s'.reqs[h].parents == s.reqs[h].parents)
      && s'.reqs[c].parents == (if c in s.reqs then s.reqs[c].parents else []) + parents
      && (c !in s.reqs ==> s'.reqs[c].data == None && s'.reqs[c].kind == e.kind && s'.reqs[c].deps == 0)
  {}

  lemma ScheduleListed<K(!new)>(s: State<K>, e: Entry<K>, parents: seq<K>)
    requires Distinct(s.live) && forall h :: h in s.live <==> h in s.reqs
    ensures var s' := Scheduled(s, e, parents); Distinct(s'.live) && forall h :: h in s'.live <==> h in s'.reqs
  {}

  /** A root is requested on nobody's behalf. */
  lemma ScheduleRoot<K(!new)>(p: Plan<K>, s: State<K>, e: Entry<K>, cur: K)
    requires SyncInv(p, s, multiset{}, cur, []) && Askable(p, s, e)
    ensures SyncInv(p, Scheduled(s, e, []), multiset{}, cur, [])
  {
    hide Links;
    hide Distinct;
    hide Scheduled;
    hide Enumerated;
    hide Upward;
    hide Awaited;
    hide Faithful;
    hide Askable;
    var s' := Scheduled(s, e, []);
    ScheduleSame(s, e, []);
    ScheduleRest(p, s, e, [], cur, [], []);
    ScheduleOrdered(p, s, e, []);
    forall h | h in s'.reqs
      ensures s'.reqs[h].deps == Links(s'.reqs, s'.live, h)
    {
      ScheduleLinks(p, s, e, [], h);
      if h !in s.reqs {
        Unheard(p, s, h);
      }
    }
  }

  // ---- a node arrives ----

  function Received<K(==)>(reqs: Requests<K>, h: K, data: seq<byte>): (r: Requests<K>)
    requires h in reqs
  {
    reqs[h := reqs[h].(data := Some(data))]
  }

  lemma ReceiveInv<K(!new)>(p: Plan<K>, s: State<K>, h: K, cur: K)
    requires SyncInv(p, s, multiset{}, cur, []) && h in s.reqs && s.reqs[h].data == None
    requires p.genuine(h) && (s.reqs[h].kind.Node? ==> p.decodes(h))
    ensures SyncInv(p, s.(reqs := Received(s.reqs, h, p.blob(h))), multiset{}, h, RefsOf(p, s, h))
    ensures s.reqs[h].deps == 0
  {
    hide Links;
    hide Distinct;
    hide Ordered;
    hide ClosedDb;
    var s' := s.(reqs := Received(s.reqs, h, p.blob(h)));
    ReceiveFree(p, s, h);
    ReceiveRest(p, s, h, cur);
    ReceiveListed(p, s, h);
    RetuneOrdered(p, s, s'.reqs);
    hide Awaited;
    hide Upward;
    hide Enumerated;
    hide Faithful;
    LiveIn(p, s);
    forall x | x in s.reqs
      ensures Links(s'.reqs, s'.live, x) == Links(s.reqs, s.live, x)
    {
      LinksSame(s.reqs, s'.reqs, s.live, x);
    }
  }

  lemma LiveIn<K(!new)>(p: Plan<K>, s: State<K>)
    requires Enumerated(p, s)
    ensures forall c :: c in s.live <==> c in s.reqs
  {
    hide Distinct;
    hide Askable;
  }

  lemma ReceiveFree<K(!new)>(p: Plan<K>, s: State<K>, h: K)
    requires Enumerated(p, s) && Upward(p, s) && DepsCounted(s, multiset{}) && h in s.reqs && s.reqs[h].data == None
    ensures s.reqs[h].deps == 0
  {
    hide Links;
    hide Distinct;
    hide Askable;
    NoLinks(s.reqs, s.live, h);
  }

  lemma ReceiveListed<K(!new)>(p: Plan<K>, s: State<K>, h: K)
    requires Enumerated(p, s) && Faithful(p, s) && h in s.reqs && p.genuine(h)
    requires s.reqs[h].kind.Node? ==> p.decodes(h)
    ensures var s' := s.(reqs := Received(s.reqs, h, p.blob(h))); Enumerated(p, s') && Faithful(p, s')
  {
    hide Distinct;
  }

  lemma ReceiveRest<K(!new)>(p: Plan<K>, s: State<K>, h: K, cur: K)
    requires Upward(p, s) && Awaited(p, s, cur, []) && h in s.reqs
    ensures var s' := s.(reqs := Received(s.reqs, h, p.blob(h))); Upward(p, s') && Awaited(p, s', h, RefsOf(p, s, h))
  {}

  /** The current node is made to wait for n more links. */
  function Waiting<K(==)>(reqs: Requests<K>, h: K, n: int): (r: Requests<K>)
    requires h in reqs
  {
    reqs[h := reqs[h].(deps := reqs[h].deps + n)]
  }

  lemma WaitInv<K(!new)>(p: Plan<K>, s: State<K>, owed: multiset<K>, cur: K, todo: seq<Entry<K>>, more: multiset<K>,
                         n: int)
    requires SyncInv(p, s, owed, cur, todo) && cur in s.reqs
    requires forall x :: more[x] == if x == cur then n else 0
    ensures SyncInv(p, s.(reqs := Waiting(s.reqs, cur, n)), owed + more, cur, todo)
  {
    hide SyncInv;
    Retune(p, s, Waiting(s.reqs, cur, n), owed, owed + more, cur, todo);
  }

  /** Children that are there need not be waited for. */
  lemma SkipInv<K(!new)>(p: Plan<K>, s: State<K>, owed: multiset<K>, cur: K, todo: seq<Entry<K>>, todo': seq<Entry<K>>)
    requires SyncInv(p, s, owed, cur, todo) && forall x :: x in todo ==> x in todo' || Present(p, s, x)
    ensures SyncInv(p, s, owed, cur, todo')
  {
    hide Links;
    hide Distinct;
  }

  // ---- what the invariant means ----

  /** The database with the first k buffered entries written to it. */
  function Flushed<K(==)>(db: map<K, seq<byte>>, batch: map<K, seq<byte>>, order: seq<K>, k: nat)
    : (r: map<K, seq<byte>>)
    requires k <= |order| && forall h :: h in order ==> h in batch
  {
    if k == 0 then db else Flushed(db, batch, order, k - 1)[order[k - 1] := batch[order[k - 1]]]
  }

  lemma {:induction false} FlushedKeys<K(!new)>(db: map<K, seq<byte>>, batch: map<K, seq<byte>>, order: seq<K>, k: nat)
    requires k <= |order| && forall h :: h in order ==> h in batch
    ensures
      var r := Flushed(db, batch, order, k);
      && (forall h :: h in r <==> h in db || h in order[..k])
      && forall h :: h in r ==> (h in db && r[h] == db[h]) || (h in batch && r[h] == batch[h])
  {
    if k > 0 {
      FlushedKeys(db, batch, order, k - 1);
      assert order[..k] == order[..k - 1] + [order[k - 1]];
    }
  }

  /** Whatever prefix of the buffer has been written, the database is closed and the scheduler goes on as before. */
  lemma PrefixInv<K(!new)>(p: Plan<K>, s: State<K>, owed: multiset<K>, cur: K, todo: seq<Entry<K>>, k: nat)
    requires SyncInv(p, s, owed, cur, todo) && k <= |s.order|
    ensures SyncInv(p, s.(db := Flushed(s.db, s.batch, s.order, k)), owed, cur, todo)
  {
    hide Links;
    hide Distinct;
    hide Flushed;
    hide Awaited;
    hide Upward;
    hide Ordered;
    hide ClosedDb;
    BatchIn(p, s);
    FlushedKeys(s.db, s.batch, s.order, k);
    var db' := Flushed(s.db, s.batch, s.order, k);
    PrefixClosed(p, s, k);
    PrefixAwaited(p, s, db', cur, todo);
    PrefixUpward(p, s, db');
    PrefixListed(p, s, k);
    PrefixOrdered(p, s, db');
    hide Enumerated;
    hide Faithful;
  }

  lemma BatchIn<K(!new)>(p: Plan<K>, s: State<K>)
    requires Enumerated(p, s)
    ensures forall h :: h in s.order <==> h in s.batch
  {
    hide Distinct;
    hide Askable;
  }

  lemma PrefixListed<K(!new)>(p: Plan<K>, s: State<K>, k: nat)
    requires Enumerated(p, s) && Faithful(p, s) && k <= |s.order| && forall h :: h in s.order ==> h in s.batch
    ensures var s' := s.(db := Flushed(s.db, s.batch, s.order, k)); Enumerated(p, s') && Faithful(p, s')
  {
    hide Distinct;
    hide Flushed;
    FlushedKeys(s.db, s.batch, s.order, k);
    assert forall h :: h in s.order[..k] ==> h in s.order;
  }

  lemma PrefixOrdered<K(!new)>(p: Plan<K>, s: State<K>, db': map<K, seq<byte>>)
    requires Ordered(p, s) && forall h :: h in s.db ==> h in db'
    ensures Ordered(p, s.(db := db'))
  {}

  lemma PrefixUpward<K(!new)>(p: Plan<K>, s: State<K>, db': map<K, seq<byte>>)
    requires Upward(p, s)
    ensures Upward(p, s.(db := db'))
  {}

  lemma PrefixAwaited<K(!new)>(p: Plan<K>, s: State<K>, db': map<K, seq<byte>>, cur: K, todo: seq<Entry<K>>)
    requires Awaited(p, s, cur, todo) && forall h :: h in s.db ==> h in db'
    ensures Awaited(p, s.(db := db'), cur, todo)
  {}

  lemma PrefixClosed<K(!new)>(p: Plan<K>, s: State<K>, k: nat)
    requires ClosedDb(p, s.kinds, s.db) && Ordered(p, s) && k <= |s.order| && forall h :: h in s.order ==> h in s.batch
    ensures ClosedDb(p, s.kinds, Flushed(s.db, s.batch, s.order, k))
  {
    hide Flushed;
    FlushedKeys(s.db, s.batch, s.order, k);
    var db' := Flushed(s.db, s.batch, s.order, k);
    forall h, x | h in db' && h in s.kinds && x in p.Refs(Entry(h, s.kinds[h]))
      ensures p.Void(x) || x.hash in db'
    {
      if h !in s.db {
        var i :| 0 <= i < k && s.order[i] == h;
        assert s.order[..i] <= s.order[..k];
      }
    }
  }

  /** Once everything buffered is written it is closed as a whole. */
  lemma DrainInv<K(!new)>(p: Plan<K>, s: State<K>, owed: multiset<K>, cur: K, todo: seq<Entry<K>>)
    requires SyncInv(p, s, owed, cur, todo) && forall h :: h in s.order ==> h in s.db
    ensures SyncInv(p, s.(batch := map[], order := []), owed, cur, todo)
  {
    hide Links;
    hide Distinct;
    hide Awaited;
    hide Ordered;
    hide ClosedDb;
    hide Upward;
    DrainAwaited(p, s, cur, todo);
    DrainListed(p, s);
    DrainRest(p, s);
    hide Enumerated;
    hide Faithful;
  }

  lemma DrainListed<K(!new)>(p: Plan<K>, s: State<K>)
    requires Enumerated(p, s) && Faithful(p, s) && forall h :: h in s.order ==> h in s.db
    ensures var s' := s.(batch := map[], order := []); Enumerated(p, s') && Faithful(p, s')
  {
    hide Distinct;
  }

  lemma DrainRest<K(!new)>(p: Plan<K>, s: State<K>)
    requires Upward(p, s)
    ensures var s' := s.(batch := map[], order := []); Upward(p, s') && Ordered(p, s')
  {}

  lemma DrainAwaited<K(!new)>(p: Plan<K>, s: State<K>, cur: K, todo: seq<Entry<K>>)
    requires Awaited(p, s, cur, todo) && Enumerated(p, s) && forall h :: h in s.order ==> h in s.db
    ensures Awaited(p, s.(batch := map[], order := []), cur, todo)
  {
    hide Distinct;
  }

  /** The sync cannot get stuck: as long as anything is pending, something has still to be delivered. */
  lemma {:induction false} SomethingToFetch<K(!new)>(p: Plan<K>, s: State<K>, cur: K, h: K) returns (c: K)
    requires SyncInv(p, s, multiset{}, cur, []) && h in s.reqs
    requires forall x :: x in s.reqs && s.reqs[x].data.Some? ==> s.reqs[x].deps > 0
    ensures c in s.reqs && s.reqs[c].data == None && p.rank(c) <= p.rank(h)
    decreases p.rank(h)
  {
    hide Links;
    hide Distinct;
    hide Awaited;
    hide Ordered;
    hide ClosedDb;
    if s.reqs[h].data == None {
      c := h;
    } else {
      NoLinks(s.reqs, s.live, h);
      var x :| x in s.live && h in s.reqs[x].parents;
      c := SomethingToFetch(p, s, cur, x);
    }
  }

  lemma KnownBelow<K(!new)>(p: Plan<K>, s: State<K>, owed: multiset<K>, cur: K, h: K, x: Entry<K>)
    requires SyncInv(p, s, owed, cur, []) && h in s.kinds && x in p.Refs(Entry(h, s.kinds[h]))
    ensures Present(p, s, x)
  {
    hide Links;
    hide Distinct;
    hide Awaited;
    hide Upward;
    hide DepsCounted;
    hide Askable;
    if h !in s.db {
      var i :| 0 <= i < |s.order| && s.order[i] == h;
      assert forall y :: y in s.order[..i] ==> y in s.order;
    }
  }

  // ---- what is asked for, and what is expanded ----

  /** A chain of references. */
  ghost predicate Path<K(!new)>(p: Plan<K>, path: seq<Entry<K>>) {
    path != [] && forall i :: 0 <= i < |path| - 1 ==> !p.Void(path[i]) && path[i + 1] in p.Refs(path[i])
  }

  ghost predicate Leads<K(!new)>(p: Plan<K>, path: seq<Entry<K>>, a: Entry<K>, b: Entry<K>) {
    Path(p, path) && path[0] == a && path[|path| - 1] == b
  }

  ghost predicate Reaches<K(!new)>(p: Plan<K>, a: Entry<K>, b: Entry<K>) {
    exists path :: Leads(p, path, a, b)
  }

  /** All that the entry refers to, directly or not, is there. */
  ghost predicate Complete<K(!new)>(p: Plan<K>, s: State<K>, e: Entry<K>) {
    forall x :: Reaches(p, e, x) ==> Present(p, s, x)
  }

  lemma ReachSelf<K(!new)>(p: Plan<K>, a: Entry<K>)
    ensures Reaches(p, a, a)
  {
    assert Leads(p, [a], a, a);
  }

  lemma ReachStep<K(!new)>(p: Plan<K>, a: Entry<K>, b: Entry<K>, c: Entry<K>)
    requires Reaches(p, a, b) && !p.Void(b) && c in p.Refs(b)
    ensures Reaches(p, a, c)
  {
    var path :| Leads(p, path, a, b);
    assert Leads(p, path + [c], a, c);
  }

  lemma ReachTrans<K(!new)>(p: Plan<K>, a: Entry<K>, b: Entry<K>, c: Entry<K>)
    requires Reaches(p, a, b) && Reaches(p, b, c)
    ensures Reaches(p, a, c)
  {
    var l, r :| Leads(p, l, a, b) && Leads(p, r, b, c);
    var path := l + r[1..];
    forall i | 0 <= i < |path| - 1
      ensures !p.Void(path[i]) && path[i + 1] in p.Refs(path[i])
    {
      if i >= |l| - 1 {
        assert path[i] == r[i - |l| + 1] && path[i + 1] == r[i - |l| + 2];
      }
    }
    assert path[|path| - 1] == r[|r| - 1];
    assert Leads(p, path, a, c);
  }

  /** The hash is pending or there as a kind that asks for all the entry refers to. */
  ghost predicate Met<K(!new)>(p: Plan<K>, s: State<K>, x: Entry<K>) {
    || (x.hash in s.reqs && p.Covered(x, s.reqs[x.hash].kind))
    || (x.hash in s.kinds && p.Covered(x, s.kinds[x.hash]))
  }

  /** The entry, if it is not. */
  ghost function Unmet<K(!new)>(p: Plan<K>, s: State<K>, x: Entry<K>): (m: set<Entry<K>>) {
    if p.Void(x) || Met(p, s, x) then {} else {x}
  }

  ghost predicate Answered<K(!new)>(p: Plan<K>, s: State<K>, merged: set<Entry<K>>, x: Entry<K>) {
    p.Void(x) || x in merged || Met(p, s, x)
  }

  /** What an expanded hash refers to is met, or known not to be, or about to be asked for. */
  ghost predicate Settled<K(!new)>(p: Plan<K>, s: State<K>, merged: set<Entry<K>>, cur: K, todo: seq<Entry<K>>) {
    && (forall h, x :: h in s.reqs && s.reqs[h].data.Some? && x in RefsOf(p, s, h) ==>
          Answered(p, s, merged, x) || (h == cur && x in todo))
    && (forall h, x :: h in s.kinds && x in p.Refs(Entry(h, s.kinds[h])) ==> Answered(p, s, merged, x))
  }

  /** The root leads to the entry, or it was there from the start. */
  ghost predicate Wanted<K(!new)>(p: Plan<K>, root: Entry<K>, start: map<K, Kind>, e: Entry<K>) {
    Reaches(p, root, e) || (e.hash in start && start[e.hash] == e.kind)
  }

  /** The same hash is wanted as a kind that does not ask for all the entry refers to. */
  ghost predicate Clashes<K(!new)>(p: Plan<K>, root: Entry<K>, start: map<K, Kind>, m: Entry<K>) {
    exists k :: Wanted(p, root, start, Entry(m.hash, k)) && !p.Covered(m, k)
  }

  /** Nothing is asked for that the root does not lead to, and what is unmet clashes with something wanted. */
  ghost predicate Sourced<K(!new)>(p: Plan<K>, root: Entry<K>, start: map<K, Kind>, s: State<K>,
                                   merged: set<Entry<K>>) {
    && (forall h :: h in s.reqs ==> Reaches(p, root, Entry(h, s.reqs[h].kind)))
    && (forall h :: h in s.kinds ==> Wanted(p, root, start, Entry(h, s.kinds[h])))
    && (forall m :: m in merged ==> Reaches(p, root, m) && Clashes(p, root, start, m))
  }

  /** What is unmet although its hash is pending or there clashes. */
  lemma UnmetClashes<K(!new)>(p: Plan<K>, root: Entry<K>, start: map<K, Kind>, s: State<K>, merged: set<Entry<K>>,
                              x: Entry<K>)
    requires Sourced(p, root, start, s, merged) && (x.hash in s.reqs || x.hash in s.kinds || p.Void(x))
    ensures forall m :: m in Unmet(p, s, x) ==> m == x && Clashes(p, root, start, m)
  {
    hide Reaches;
    if !p.Void(x) && !Met(p, s, x) {
      var k := if x.hash in s.reqs then s.reqs[x.hash].kind else s.kinds[x.hash];
      assert Wanted(p, root, start, Entry(x.hash, k)) && !p.Covered(x, k);
    }
  }

  /** No hash is wanted as two kinds that ask for different things. */
  ghost predicate Unmixed<K(!new)>(p: Plan<K>, root: Entry<K>, start: map<K, Kind>) {
    forall x, k :: Reaches(p, root, x) && Wanted(p, root, start, Entry(x.hash, k)) ==> p.Covered(x, k)
  }

  /** Then nothing is ever unmet. */
  lemma UnmixedMet<K(!new)>(p: Plan<K>, root: Entry<K>, start: map<K, Kind>, s: State<K>, merged: set<Entry<K>>)
    requires Sourced(p, root, start, s, merged) && Unmixed(p, root, start)
    ensures merged == {}
  {
    hide Reaches;
    hide Unmixed;
    hide Clashes;
    if merged != {} {
      var m :| m in merged;
      NoClash(p, root, start, m);
      assert false;
    }
  }

  lemma NoClash<K(!new)>(p: Plan<K>, root: Entry<K>, start: map<K, Kind>, m: Entry<K>)
    requires Unmixed(p, root, start) && Reaches(p, root, m)
    ensures !Clashes(p, root, start, m)
  {
    hide Reaches;
  }

  ghost predicate Accounted<K(!new)>(p: Plan<K>, root: Entry<K>, start: map<K, Kind>, s: State<K>,
                                     merged: set<Entry<K>>, cur: K, todo: seq<Entry<K>>) {
    Settled(p, s, merged, cur, todo) && Sourced(p, root, start, s, merged) && Answered(p, s, merged, root)
  }

  /** Kinds stay what they are, and only new ones come in. */
  ghost predicate SameKinds<K(!new)>(s: State<K>, s': State<K>) {
    && (forall h :: h in s.reqs && h in s'.reqs ==> s'.reqs[h].kind == s.reqs[h].kind)
    && (forall h :: h in s.reqs && h !in s'.reqs ==> h in s'.kinds && s'.kinds[h] == s.reqs[h].kind)
    && (forall h :: h in s.kinds ==> h in s'.kinds && s'.kinds[h] == s.kinds[h])
  }

  lemma MetKept<K(!new)>(p: Plan<K>, s: State<K>, s': State<K>, x: Entry<K>)
    requires SameKinds(s, s') && Met(p, s, x)
    ensures Met(p, s', x)
  {
    hide p.Covered;
  }

  lemma AnsweredKept<K(!new)>(p: Plan<K>, s: State<K>, s': State<K>, merged: set<Entry<K>>, merged': set<Entry<K>>,
                              x: Entry<K>)
    requires SameKinds(s, s') && merged <= merged' && Answered(p, s, merged, x)
    ensures Answered(p, s', merged', x)
  {
    hide Met;
    if Met(p, s, x) {
      MetKept(p, s, s', x);
    }
  }

  /** Whatever keeps kinds and data, and completes or asks for nothing new, changes nothing here. */
  lemma AccountedKept<K(!new)>(p: Plan<K>, root: Entry<K>, start: map<K, Kind>, s: State<K>, s': State<K>,
                               merged: set<Entry<K>>, cur: K, todo: seq<Entry<K>>)
    requires Accounted(p, root, start, s, merged, cur, todo) && SameKinds(s, s')
    requires forall h :: h in s'.reqs ==> h in s.reqs && s'.reqs[h].data == s.reqs[h].data
    requires forall h :: h in s'.kinds ==>
      h in s.kinds || (h in s.reqs && s.reqs[h].data.Some? && s'.kinds[h] == s.reqs[h].kind)
    requires todo != [] ==> s'.kinds == s.kinds
    ensures Accounted(p, root, start, s', merged, cur, todo)
  {
    hide Answered;
    hide Reaches;
    hide Clashes;
    forall x | Answered(p, s, merged, x)
      ensures Answered(p, s', merged, x)
    {
      AnsweredKept(p, s, s', merged, merged, x);
    }
  }

  lemma AccountedCur<K(!new)>(p: Plan<K>, root: Entry<K>, start: map<K, Kind>, s: State<K>, merged: set<Entry<K>>,
                              cur: K, cur': K)
    requires Accounted(p, root, start, s, merged, cur, [])
    ensures Accounted(p, root, start, s, merged, cur', [])
  {
    hide Answered;
    hide Reaches;
    hide Clashes;
  }

  lemma AccountedReceive<K(!new)>(p: Plan<K>, root: Entry<K>, start: map<K, Kind>, s: State<K>, merged: set<Entry<K>>,
                                  h: K, data: seq<byte>)
    requires Accounted(p, root, start, s, merged, h, []) && h in s.reqs
    ensures Accounted(p, root, start, s.(reqs := Received(s.reqs, h, data)), merged, h, RefsOf(p, s, h))
  {
    hide Answered;
    hide Reaches;
    hide Clashes;
    var s' := s.(reqs := Received(s.reqs, h, data));
    forall x | Answered(p, s, merged, x)
      ensures Answered(p, s', merged, x)
    {
      AnsweredKept(p, s, s', merged, merged, x);
    }
  }

  /** Some of what was about to be asked for is answered already. */
  lemma AccountedSkip<K(!new)>(p: Plan<K>, root: Entry<K>, start: map<K, Kind>, s: State<K>, merged: set<Entry<K>>,
                               merged': set<Entry<K>>, cur: K, todo: seq<Entry<K>>, todo': seq<Entry<K>>)
    requires Accounted(p, root, start, s, merged, cur, todo) && merged <= merged'
    requires forall x :: x in todo ==> x in todo' || Answered(p, s, merged', x)
    requires forall m :: m in merged' ==> m in merged || (Reaches(p, root, m) && Clashes(p, root, start, m))
    ensures Accounted(p, root, start, s, merged', cur, todo')
  {
    hide Answered;
    hide Reaches;
    hide Clashes;
    forall x | Answered(p, s, merged, x)
      ensures Answered(p, s, merged', x)
    {
      AnsweredKept(p, s, s, merged, merged', x);
    }
  }

  /** A request is made, or joins one that is pending. */
  lemma AccountedSchedule<K(!new)>(p: Plan<K>, root: Entry<K>, start: map<K, Kind>, s: State<K>, merged: set<Entry<K>>,
                                   e: Entry<K>, ps: seq<K>, cur: K, todo: seq<Entry<K>>)
    requires Accounted(p, root, start, s, merged, cur, todo) && todo != [] && todo[0] == e && Reaches(p, root, e)
    ensures var s' := Scheduled(s, e, ps); Accounted(p, root, start, s', merged + Unmet(p, s', e), cur, todo[1..])
  {
    hide Answered;
    hide Reaches;
    hide Clashes;
    hide Scheduled;
    var s' := Scheduled(s, e, ps);
    SettledSchedule(p, s, merged, e, ps, cur, todo);
    SourcedSchedule(p, root, start, s, merged, e, ps);
    ScheduleSame(s, e, ps);
    AnsweredKept(p, s, s', merged, merged + Unmet(p, s', e), root);
    hide Settled;
    hide Sourced;
  }

  lemma SettledSchedule<K(!new)>(p: Plan<K>, s: State<K>, merged: set<Entry<K>>, e: Entry<K>, ps: seq<K>, cur: K,
                                 todo: seq<Entry<K>>)
    requires Settled(p, s, merged, cur, todo) && todo != [] && todo[0] == e
    ensures var s' := Scheduled(s, e, ps); Settled(p, s', merged + Unmet(p, s', e), cur, todo[1..])
  {
    hide Answered;
    hide Scheduled;
    ScheduleSame(s, e, ps);
    var s' := Scheduled(s, e, ps);
    var merged' := merged + Unmet(p, s', e);
    forall x | Answered(p, s, merged, x)
      ensures Answered(p, s', merged', x)
    {
      AnsweredKept(p, s, s', merged, merged', x);
    }
    UnmetAnswered(p, s', merged, e);
    assert forall x :: x in todo ==> x == e || x in todo[1..];
  }

  lemma SourcedSchedule<K(!new)>(p: Plan<K>, root: Entry<K>, start: map<K, Kind>, s: State<K>, merged: set<Entry<K>>,
                                 e: Entry<K>, ps: seq<K>)
    requires Sourced(p, root, start, s, merged) && Reaches(p, root, e)
    ensures var s' := Scheduled(s, e, ps); Sourced(p, root, start, s', merged + Unmet(p, s', e))
  {
    hide Reaches;
    hide Clashes;
    hide Scheduled;
    ScheduleSame(s, e, ps);
    var s' := Scheduled(s, e, ps);
    assert Sourced(p, root, start, s', merged);
    UnmetClashes(p, root, start, s', merged, e);
    hide Unmet;
  }

  lemma UnmetAnswered<K(!new)>(p: Plan<K>, s: State<K>, merged: set<Entry<K>>, x: Entry<K>)
    ensures Answered(p, s, merged + Unmet(p, s, x), x)
  {
    hide Met;
  }

  /** With nothing pending, what is met leads only to what is there, as long as nothing unmet is in between. */
  lemma {:induction false} PathMet<K(!new)>(p: Plan<K>, s: State<K>, merged: set<Entry<K>>, cur: K, path: seq<Entry<K>>)
    requires SyncInv(p, s, multiset{}, cur, []) && Settled(p, s, merged, cur, []) && s.reqs == map[]
    requires Path(p, path) && Present(p, s, path[0]) && Answered(p, s, merged, path[0])
    requires forall i :: 0 <= i < |path| ==> path[i] !in merged
    ensures Present(p, s, path[|path| - 1]) && Answered(p, s, merged, path[|path| - 1])
  {
    hide SyncInv;
    if |path| > 1 {
      var init := path[..|path| - 1];
      PathMet(p, s, merged, cur, init);
      var (e, x) := (init[|init| - 1], path[|path| - 1]);
      assert e == path[|path| - 2] && x in p.Refs(e);
      KnownBelow(p, s, multiset{}, cur, e.hash, x);
    }
  }

  /**
   * With nothing pending, all that the root leads to is there exactly if all is there that is led to
   * by the entries whose hash was expanded as a kind that asks for less.
   */
  lemma CompleteIff<K(!new)>(p: Plan<K>, root: Entry<K>, start: map<K, Kind>, s: State<K>, merged: set<Entry<K>>,
                             cur: K)
    requires SyncInv(p, s, multiset{}, cur, []) && Accounted(p, root, start, s, merged, cur, []) && s.reqs == map[]
    requires Present(p, s, root)
    ensures Complete(p, s, root) <==> forall m :: m in merged ==> Complete(p, s, m)
  {
    hide SyncInv;
    hide Reaches;
    hide Present;
    if Complete(p, s, root) {
      forall m, x | m in merged && Reaches(p, m, x)
        ensures Present(p, s, x)
      {
        ReachTrans(p, root, m, x);
      }
    }
    if forall m :: m in merged ==> Complete(p, s, m) {
      forall x | Reaches(p, root, x)
        ensures Present(p, s, x)
      {
        ReachedPresent(p, s, merged, cur, root, x);
      }
    }
  }

  lemma ReachedPresent<K(!new)>(p: Plan<K>, s: State<K>, merged: set<Entry<K>>, cur: K, e: Entry<K>, x: Entry<K>)
    requires SyncInv(p, s, multiset{}, cur, []) && Settled(p, s, merged, cur, []) && s.reqs == map[]
    requires Present(p, s, e) && Answered(p, s, merged, e) && Reaches(p, e, x)
    requires forall m :: m in merged ==> Complete(p, s, m)
    ensures Present(p, s, x)
  {
    hide SyncInv;
    hide Settled;
    hide Present;
    hide Answered;
    var path :| Leads(p, path, e, x);
    if i :| 0 <= i < |path| && path[i] in merged {
      assert Leads(p, path[i..], path[i], x);
      assert Reaches(p, path[i], x);
    } else {
      PathMet(p, s, merged, cur, path);
    }
  }

  // ---- the scheduler ----

  datatype Item<K> = Item(hash: K, data: seq<byte>)

  datatype Outcome = Fine | NotRequested | AlreadyProcessed | Undecodable

  /** What becomes of a delivery. */
  function Verdict<K(!new, ==)>(p: Plan<K>, s: State<K>, h: K): (o: Outcome) {
    if h !in s.reqs then NotRequested
    else if s.reqs[h].data.Some? then AlreadyProcessed
    else if s.reqs[h].kind.Node? && !p.decodes(h) then Undecodable
    else Fine
  }

  /** Links are owed to pending, received requests only. */
  ghost predicate OwedOk<K(!new)>(s: State<K>, owed: multiset<K>) {
    forall h :: h in owed ==> h in s.reqs && s.reqs[h].data.Some?
  }

  /**
   * The filter has no false negatives, every request still to be delivered is queued or handed
   * out, and the root is there or asked for.
   */
  ghost predicate OnTrack<K(!new)>(p: Plan<K>, root: Entry<K>, s: State<K>, queue: seq<K>, fetching: set<K>,
                                   bloom: set<K>) {
    && (forall h :: h in s.db ==> h in bloom)
    && (Present(p, s, root) || root.hash in s.reqs)
    && forall h :: h in s.reqs && s.reqs[h].data == None ==> h in queue || h in fetching
  }

  lemma AdvancedOnTrack<K(!new)>(p: Plan<K>, root: Entry<K>, s: State<K>, s': State<K>, queue: seq<K>, fetching: set<K>,
                                 bloom: set<K>)
    requires Advanced(s, s') && OnTrack(p, root, s, queue, fetching, bloom)
    ensures OnTrack(p, root, s', queue, fetching, bloom)
  {}

  /** Received requests, with the given exceptions, wait for something. */
  ghost predicate AllWait<K(!new)>(reqs: Requests<K>, but: set<K>) {
    forall h :: h in reqs && reqs[h].data.Some? && h !in but ==> reqs[h].deps > 0
  }

  /** Requests only leave by being completed, and completions are only added. */
  ghost predicate Advanced<K(!new)>(s: State<K>, s': State<K>) {
    && s'.db == s.db && s.order <= s'.order && |s'.live| <= |s.live| && SameKinds(s, s')
    && (forall x :: x in s'.reqs ==> x in s.reqs && s'.reqs[x].data == s.reqs[x].data)
    && (forall x :: x in s.batch || (x in s.reqs && x !in s'.reqs) ==> x in s'.batch)
    && (forall x :: x in s'.batch ==> x in s.batch || (x in s.reqs && s.reqs[x].data.Some?))
  }

  lemma AdvancedTrans<K(!new)>(a: State<K>, b: State<K>, c: State<K>)
    requires Advanced(a, b) && Advanced(b, c)
    ensures Advanced(a, c)
  {}

  lemma AdvancedGone<K(!new)>(s: State<K>, s': State<K>, h: K)
    requires Advanced(s, s') && h !in s.reqs && h in s.batch
    ensures h !in s'.reqs && h in s'.batch && |s'.live| <= |s.live| && |s.order| <= |s'.order|
  {}

  lemma AdvancedSelf<K(!new)>(s: State<K>)
    ensures Advanced(s, s)
  {}

  lemma ToldAdvanced<K(!new)>(s: State<K>, s': State<K>, owed: multiset<K>, rest: multiset<K>, h: K)
    requires h in s'.reqs && Advanced(s, s') && OwedOk(s', owed) && rest == owed - multiset{h}
    ensures Advanced(s, s'.(reqs := Told(s'.reqs, h))) && OwedOk(s'.(reqs := Told(s'.reqs, h)), rest)
  {}

  lemma OwedIn<K(!new)>(s: State<K>, owed: multiset<K>, h: K)
    requires OwedOk(s, owed) && owed[h] > 0
    ensures h in s.reqs && s.reqs[h].data.Some?
  {}

  lemma CompletedAdvanced<K(!new)>(p: Plan<K>, s: State<K>, i: nat)
    requires Enumerated(p, s) && Faithful(p, s) && i < |s.live| && s.live[i] in s.reqs && s.reqs[s.live[i]].data.Some?
    ensures Advanced(s, Completed(s, i)) && s.live[i] in Completed(s, i).batch && s.live[i] !in Completed(s, i).reqs
    ensures |Completed(s, i).live| < |s.live|
  {
    hide Distinct;
  }

  /**
   * What one accepted delivery does: new requests are for what the entry refers to, pending ones keep
   * their kind, and only what has been delivered is completed.
   */
  ghost predicate Fed<K(!new)>(p: Plan<K>, s: State<K>, s': State<K>, e: Entry<K>) {
    s'.db == s.db && e.hash in s.reqs && FedReqs(p, s, s', e) && FedDone(s, s', e.hash) && SameKinds(s, s')
  }

  ghost predicate FedReqs<K(!new)>(p: Plan<K>, s: State<K>, s': State<K>, e: Entry<K>) {
    && (forall x :: x in s'.reqs && x in s.reqs ==>
          s'.reqs[x].kind == s.reqs[x].kind && (x != e.hash ==> s'.reqs[x].data == s.reqs[x].data))
    && (forall x :: x in s'.reqs && x !in s.reqs ==>
          x !in s.batch && s'.reqs[x].data == None && Entry(x, s'.reqs[x].kind) in p.Refs(e))
  }

  ghost predicate FedDone<K(!new)>(s: State<K>, s': State<K>, h: K) {
    && (forall x :: x in s.batch || (x in s.reqs && x !in s'.reqs) ==> x in s'.batch)
    && (forall x :: x in s'.batch ==> x in s.batch || (x in s.reqs && (x == h || s.reqs[x].data.Some?)))
  }

  lemma FedTrans<K(!new)>(p: Plan<K>, a: State<K>, b: State<K>, c: State<K>, e: Entry<K>)
    requires Fed(p, a, b, e) && Fed(p, b, c, e)
    ensures Fed(p, a, c, e)
  {
    FedReqsTrans(p, a, b, c, e);
    FedDoneTrans(p, a, b, c, e);
    KindsTrans(a, b, c);
    hide FedReqs;
    hide FedDone;
    hide SameKinds;
  }

  lemma FedReqsTrans<K(!new)>(p: Plan<K>, a: State<K>, b: State<K>, c: State<K>, e: Entry<K>)
    requires FedReqs(p, a, b, e) && FedReqs(p, b, c, e) && FedDone(a, b, e.hash) && e.hash in a.reqs
    ensures FedReqs(p, a, c, e)
  {
    hide p.Refs;
  }

  lemma FedDoneTrans<K(!new)>(p: Plan<K>, a: State<K>, b: State<K>, c: State<K>, e: Entry<K>)
    requires FedReqs(p, a, b, e) && FedDone(a, b, e.hash) && FedDone(b, c, e.hash) && e.hash in a.reqs
    ensures FedDone(a, c, e.hash)
  {
    hide p.Refs;
  }

  lemma KindsTrans<K(!new)>(a: State<K>, b: State<K>, c: State<K>)
    requires SameKinds(a, b) && SameKinds(b, c)
    ensures (forall h :: h in a.reqs && h in c.reqs ==> c.reqs[h].kind == a.reqs[h].kind) ==> SameKinds(a, c)
  {}

  lemma FedAdvanced<K(!new)>(p: Plan<K>, a: State<K>, b: State<K>, c: State<K>, e: Entry<K>)
    requires Fed(p, a, b, e) && Advanced(b, c)
    ensures Fed(p, a, c, e)
  {}

  lemma FedReceived<K(!new)>(p: Plan<K>, s: State<K>, e: Entry<K>, data: seq<byte>)
    requires e.hash in s.reqs
    ensures Fed(p, s, s.(reqs := Received(s.reqs, e.hash, data)), e)
  {}

  lemma FedScheduled<K(!new)>(p: Plan<K>, s: State<K>, n: int, x: Entry<K>, e: Entry<K>)
    requires e.hash in s.reqs && x in p.Refs(e) && x.hash !in s.batch
    ensures Fed(p, s, Scheduled(s.(reqs := Waiting(s.reqs, e.hash, n)), x, [e.hash]), e)
  {
    FedWaiting(p, s, e, n);
    var s1 := s.(reqs := Waiting(s.reqs, e.hash, n));
    FedAsked(p, s1, x, e);
    FedTrans(p, s, s1, Scheduled(s1, x, [e.hash]), e);
  }

  lemma FedAsked<K(!new)>(p: Plan<K>, s: State<K>, x: Entry<K>, e: Entry<K>)
    requires e.hash in s.reqs && x in p.Refs(e) && x.hash !in s.batch
    ensures Fed(p, s, Scheduled(s, x, [e.hash]), e)
  {
    hide Scheduled;
    hide p.Refs;
    ScheduleSame(s, x, [e.hash]);
  }

  lemma FedSelf<K(!new)>(p: Plan<K>, s: State<K>, e: Entry<K>)
    requires e.hash in s.reqs
    ensures Fed(p, s, s, e)
  {}

  class Sync<K(!new, ==)> {
    const p: Plan<K>
    const root: Entry<K>
    ghost const start: map<K, Kind>
    var database: map<K, seq<byte>>
    var batch: map<K, seq<byte>>
    var order: seq<K>
    var requests: Requests<K>
    var queue: seq<K>
    var bloom: set<K>
    ghost var live: seq<K>
    ghost var kinds: map<K, Kind>
    ghost var merged: set<Entry<K>>
    ghost var fetching: set<K>

    ghost function Now(): (s: State<K>)
      reads this
    {
      State(requests, live, database, batch, order, kinds)
    }

    ghost predicate Tracked()
      reads this
    {
      OnTrack(p, root, Now(), queue, fetching, bloom)
    }

    ghost predicate Sane(owed: multiset<K>, cur: K, todo: seq<Entry<K>>)
      reads this
    {
      && SyncInv(p, Now(), owed, cur, todo) && OwedOk(Now(), owed) && Tracked()
      && Accounted(p, root, start, Now(), merged, cur, todo)
    }

    /**
     * NewSync: the root is asked for, unless it is there already. The database may hold anything
     * that was stored by an earlier sync.
     */
    constructor (p: Plan<K>, root: K, callback: nat, database: map<K, seq<byte>>, bloom: set<K>,
                 ghost kinds: map<K, Kind>)
      requires p.Valid() && ClosedDb(p, kinds, database) && AllMet(p, kinds) && kinds.Keys == database.Keys
      requires forall h :: h in database ==> h in bloom && database[h] == p.blob(h) && p.genuine(h)
      ensures Sane(multiset{}, root, []) && AllWait(requests, {}) && order == [] && fetching == {}
      ensures this.p == p && this.root == Entry(root, Node(callback)) && this.database == database && start == kinds
      ensures this.kinds == kinds
      ensures merged == Unmet(p, Now(), this.root)
      ensures requests == if root == p.emptyRoot || (root in database && p.decodes(root)) then map[]
                          else map[root := Request(None, Node(callback), [], 0)]
    {
      hide SyncInv;
      hide Accounted;
      hide AllMet;
      hide ClosedDb;
      hide Unmet;
      hide p.Valid;
      this.p, this.root, this.database, this.bloom := p, Entry(root, Node(callback)), database, bloom;
      batch, order, requests, queue, live, fetching := map[], [], map[], [], [], {};
      this.kinds, this.start, merged := kinds, kinds, {};
      new;
      StartInv(p, kinds, database, root);
      if root != p.emptyRoot && !(root in bloom && root in database && p.decodes(root)) {
        ScheduleRoot(p, Now(), this.root, root);
        Schedule(this.root, []);
      }
      merged := Unmet(p, Now(), this.root);
      StartAccounted(p, this.root, start, Now());
    }

    /** schedule. */
    method Schedule(e: Entry<K>, parents: seq<K>)
      modifies `requests, `queue, `live
      ensures Now() == old(Scheduled(Now(), e, parents))
      ensures queue == old(queue) + if e.hash in old(requests) then [] else [e.hash]
      ensures old(Tracked()) ==> Tracked()
    {
      var c := e.hash;
      if c in requests {
        requests := requests[c := requests[c].(parents := requests[c].parents + parents)];
        return;
      }
      queue := queue + [c];
      requests := requests[c := Request(None, e.kind, parents, 0)];
      live := live + [c];
    }

    /** AddSubTrie and AddRawEntry for an entry below the current node, as the leaf callback calls them. */
    method AddBelow(x: Entry<K>, cur: K, ghost todo: seq<Entry<K>>)
      requires Sane(multiset{}, cur, todo) && todo != [] && todo[0] == x && AllWait(requests, {cur})
      requires cur in requests && requests[cur].data.Some? && x in RefsOf(p, Now(), cur)
      modifies `requests, `queue, `live, `merged
      ensures Sane(multiset{}, cur, todo[1..]) && AllWait(requests, {cur})
      ensures Fed(p, old(Now()), Now(), Entry(cur, old(requests[cur].kind)))
      ensures cur in requests && requests[cur].data.Some? && requests[cur].kind == old(requests[cur].kind)
      ensures order == old(order)
      ensures merged == old(merged) + Unmet(p, Now(), x)
    {
      hide SyncInv;
      hide Scheduled;
      hide AllWait;
      hide Accounted;
      hide Fed;
      hide Unmet;
      hide Reaches;
      ghost var s0, e := Now(), Entry(cur, requests[cur].kind);
      RefReached(p, root, start, s0, merged, multiset{}, cur, todo, x);
      if p.Void(x) || x.hash in batch || (x.hash in bloom && x.hash in database && (x.kind.Raw? || p.decodes(x.hash))) {
        assert forall y :: y in todo ==> y == x || y in todo[1..];
        if !p.Void(x) {
          KnownKind(p, s0, multiset{}, cur, todo, x.hash);
        }
        SkipInv(p, s0, multiset{}, cur, todo, todo[1..]);
        SkipOne(p, root, start, s0, merged, cur, todo);
        merged := merged + Unmet(p, Now(), x);
        FedSelf(p, s0, e);
        return;
      }
      WaitScheduled(p, s0, cur, todo, x);
      FedScheduled(p, s0, 1, x, e);
      AccountedWait(p, root, start, s0, merged, cur, todo, 1);
      requests := Waiting(requests, cur, 1);
      ghost var s1 := Now();
      assert s1 == s0.(reqs := requests);
      ScheduleSame(s1, x, [cur]);
      AccountedSchedule(p, root, start, s1, merged, x, [cur], cur, todo);
      BelowRest(p, root, s0, x, cur, queue, fetching, bloom);
      hide OnTrack;
      Schedule(x, [cur]);
      merged := merged + Unmet(p, Now(), x);
    }

    /** children: the hash children that are not there yet. */
    method Children(h: K, callback: nat) returns (cs: seq<K>)
      requires Tracked()
      modifies `merged
      ensures forall x :: x in cs ==> x in p.kids(h) && !Now().Known(x)
      ensures forall x :: x in p.kids(h) ==>
        x in cs || (Now().Known(x) && Answered(p, Now(), merged, Entry(x, Node(callback))))
      ensures old(merged) <= merged
      ensures forall m :: m in merged && m !in old(merged) ==>
        m.hash in p.kids(h) && m.kind == Node(callback) && Now().Known(m.hash) && m in Unmet(p, Now(), m)
    {
      hide Answered;
      var kids := p.kids(h);
      cs := [];
      for i := 0 to |kids|
        invariant forall x :: x in cs ==> x in p.kids(h) && !Now().Known(x)
        invariant forall x :: x in kids[..i] ==>
          x in cs || (Now().Known(x) && Answered(p, Now(), merged, Entry(x, Node(callback))))
        invariant old(merged) <= merged
        invariant forall m :: m in merged && m !in old(merged) ==>
          m.hash in p.kids(h) && m.kind == Node(callback) && Now().Known(m.hash) && m in Unmet(p, Now(), m)
      {
        assert kids[..i + 1] == kids[..i] + [kids[i]];
        if kids[i] in batch || (kids[i] in bloom && kids[i] in database) {
          ghost var e := Entry(kids[i], Node(callback));
          AnsweredMore(p, Now(), merged, e);
          merged := merged + Unmet(p, Now(), e);
          continue;
        }
        cs := cs + [kids[i]];
      }
      assert kids[..|kids|] == kids;
    }

    /** The leaf callbacks of a received node. */
    method ExpandSubs(h: K, callback: nat)
      requires h in requests && requests[h].data.Some? && requests[h].kind == Node(callback) && AllWait(requests, {h})
      requires Sane(multiset{}, h, p.Refs(Entry(h, Node(callback))))
      modifies `requests, `queue, `live, `merged
      ensures Sane(multiset{}, h, Nodes(p.kids(h), callback)) && AllWait(requests, {h}) && order == old(order)
      ensures h in requests && requests[h].data.Some? && requests[h].kind == Node(callback)
      ensures Fed(p, old(Now()), Now(), Entry(h, Node(callback)))
    {
      hide SyncInv;
      hide OnTrack;
      hide OwedOk;
      hide AllWait;
      hide Accounted;
      hide Fed;
      var subs := p.subs(h, callback);
      ghost var s0, e, rest := Now(), Entry(h, Node(callback)), Nodes(p.kids(h), callback);
      assert subs[0..] + rest == p.Refs(e);
      FedSelf(p, s0, e);
      for i := 0 to |subs|
        invariant Sane(multiset{}, h, subs[i..] + rest) && AllWait(requests, {h}) && order == old(order)
        invariant h in requests && requests[h].data.Some? && requests[h].kind == Node(callback) && Fed(p, s0, Now(), e)
      {
        ghost var todo, s1 := subs[i..] + rest, Now();
        assert todo[1..] == subs[i + 1..] + rest;
        assert subs[i] in p.Refs(e);
        AddBelow(subs[i], h, todo);
        FedTrans(p, s0, s1, Now(), e);
      }
      assert subs[|subs|..] + rest == rest;
    }

    /** The received node waits for the given children. */
    method Expect(h: K, cs: seq<K>, callback: nat)
      requires Sane(multiset{}, h, Nodes(cs, callback)) && h in requests && requests[h].data.Some?
      requires requests[h].kind == Node(callback)
      requires (cs != [] || requests[h].deps != 0) && AllWait(requests, {h})
      requires forall x :: x in cs ==> x in p.kids(h) && !Now().Known(x)
      modifies `requests, `queue, `live, `merged
      ensures Sane(multiset{}, h, []) && AllWait(requests, {}) && order == old(order)
      ensures h in requests && requests[h].data.Some? && Fed(p, old(Now()), Now(), Entry(h, Node(callback)))
    {
      hide SyncInv;
      hide Scheduled;
      hide OnTrack;
      hide OwedOk;
      hide AllWait;
      hide Copies;
      hide Accounted;
      hide Fed;
      hide Unmet;
      ghost var s0, e, todo := Now(), Entry(h, Node(callback)), Nodes(cs, callback);
      WaitInv(p, s0, multiset{}, h, todo, Copies(h, |cs|), |cs|);
      assert multiset{} + Copies(h, |cs|) == Copies(h, |cs|);
      DepsNonneg(p, s0, h, todo);
      AccountedWait(p, root, start, s0, merged, h, todo, |cs|);
      FedWaiting(p, s0, e, |cs|);
      requests := Waiting(requests, h, |cs|);
      WaitingRest(p, root, s0, h, |cs|, queue, fetching, bloom);
      assert todo[0..] == todo;
      for j := 0 to |cs|
        invariant Sane(Copies(h, |cs| - j), h, todo[j..]) && database == old(database) && batch == old(batch)
        invariant h in requests && requests[h].data.Some? && requests[h].kind == Node(callback) && AllWait(requests, {})
        invariant Fed(p, s0, Now(), e) && order == old(order)
      {
        ghost var s1 := Now();
        NodesMember(p.kids(h), callback, todo[j]);
        ExpectOne(h, cs, callback, j);
        FedTrans(p, s0, s1, Now(), e);
      }
      assert Copies(h, 0) == multiset{};
      assert todo[|cs|..] == [];
    }

    /** One of them. */
    method ExpectOne(h: K, cs: seq<K>, callback: nat, j: nat)
      requires j < |cs| && Sane(Copies(h, |cs| - j), h, Nodes(cs, callback)[j..]) && AllWait(requests, {})
      requires h in requests && requests[h].data.Some? && requests[h].kind == Node(callback)
      requires cs[j] in p.kids(h) && !Now().Known(cs[j]) && Nodes(cs, callback)[j] in Nodes(p.kids(h), callback)
      modifies `requests, `queue, `live, `merged
      ensures Sane(Copies(h, |cs| - j - 1), h, Nodes(cs, callback)[j + 1..]) && AllWait(requests, {})
      ensures h in requests && requests[h].data.Some? && requests[h].kind == Node(callback)
      ensures Fed(p, old(Now()), Now(), Entry(h, Node(callback)))
      ensures merged == old(merged) + Unmet(p, Now(), Nodes(cs, callback)[j])
    {
      hide SyncInv;
      hide Scheduled;
      hide OnTrack;
      hide OwedOk;
      hide AllWait;
      hide Copies;
      hide Accounted;
      hide Fed;
      hide Unmet;
      ghost var s1, todo, e := Now(), Nodes(cs, callback), Entry(h, Node(callback));
      ghost var x := todo[j];
      assert x in p.Refs(e);
      hide p.Refs;
      ScheduleNext(p, s1, h, cs, callback, j);
      ScheduleSame(s1, x, [h]);
      ScheduledRest(s1, x, h, |cs| - j - 1);
      RefReached(p, root, start, s1, merged, Copies(h, |cs| - j), h, todo[j..], x);
      AccountedSchedule(p, root, start, s1, merged, x, [h], h, todo[j..]);
      assert todo[j..][1..] == todo[j + 1..];
      FedScheduled(p, s1, 0, x, e);
      WaitingNone(s1, h);
      Schedule(Entry(cs[j], Node(callback)), [h]);
      merged := merged + Unmet(p, Now(), x);
    }

    /** Process, for one delivered item. */
    method ProcessOne(item: Item<K>, ghost cur: K) returns (o: Outcome, committed: bool)
      requires Sane(multiset{}, cur, []) && AllWait(requests, {})
      requires item.hash in requests ==> item.data == p.blob(item.hash) && p.genuine(item.hash)
      modifies `requests, `batch, `order, `live, `queue, `merged, `kinds
      ensures Sane(multiset{}, item.hash, []) && AllWait(requests, {}) && o == old(Verdict(p, Now(), item.hash))
      ensures o != Fine ==> unchanged(this) && !committed
      ensures o == Fine ==> Fed(p, old(Now()), Now(), Entry(item.hash, old(requests)[item.hash].kind))
      ensures o == Fine && item.hash in requests ==> requests[item.hash].data.Some?
      ensures old(order) <= order && (committed <==> |order| > |old(order)|)
    {
      hide SyncInv;
      hide OnTrack;
      hide Accounted;
      hide Fed;
      var h := item.hash;
      ghost var s0 := Now();
      AnyCur(p, s0, cur, h);
      AccountedCur(p, root, start, s0, merged, cur, h);
      committed := false;
      if h !in requests {
        return NotRequested, false;
      }
      if requests[h].data.Some? {
        return AlreadyProcessed, false;
      }
      var kind := requests[h].kind;
      ghost var e := Entry(h, kind);
      if kind.Node? && !p.decodes(h) {
        return Undecodable, false;
      }
      ReceiveInv(p, s0, h, h);
      AccountedReceive(p, root, start, s0, merged, h, item.data);
      FedReceived(p, s0, e, item.data);
      requests := Received(requests, h, item.data);
      assert Now() == s0.(reqs := requests);
      ReceivedOnTrack(p, root, s0, h, item.data, queue, fetching, bloom);
      ghost var s1 := Now();
      if kind.Raw? {
        CommitRequest(h, multiset{}, h);
        FedAdvanced(p, s0, s1, Now(), e);
        return Fine, true;
      }
      committed := Expand(h, kind.callback);
      FedTrans(p, s0, s1, Now(), e);
      return Fine, committed;
    }

    /** The received node's leaves and children are asked for, and it is completed if it waits for none of them. */
    method Expand(h: K, callback: nat) returns (committed: bool)
      requires h in requests && requests[h].data.Some? && requests[h].kind == Node(callback) && AllWait(requests, {h})
      requires Sane(multiset{}, h, p.Refs(Entry(h, Node(callback))))
      modifies `requests, `batch, `order, `live, `queue, `merged, `kinds
      ensures Sane(multiset{}, h, []) && AllWait(requests, {})
      ensures Fed(p, old(Now()), Now(), Entry(h, Node(callback)))
      ensures h in requests ==> requests[h].data.Some?
      ensures old(order) <= order && (committed <==> |order| > |old(order)|)
    {
      hide SyncInv;
      hide OnTrack;
      hide Accounted;
      hide Fed;
      hide p.Refs;
      hide Answered;
      hide Unmet;
      ghost var s1, e := Now(), Entry(h, Node(callback));
      ExpandSubs(h, callback);
      ghost var s2, m2 := Now(), merged;
      var cs := Children(h, callback);
      KidsSkipped(p, root, start, s2, m2, merged, h, cs, callback);
      if cs == [] && requests[h].deps == 0 {
        assert Nodes(cs, callback) == [];
        CommitRequest(h, multiset{}, h);
        FedAdvanced(p, s1, s2, Now(), e);
        return true;
      }
      Expect(h, cs, callback);
      FedTrans(p, s1, s2, Now(), e);
      return false;
    }

    /** commit: the entry is buffered, and parents that waited for nothing else follow. */
    method CommitRequest(h: K, ghost owed: multiset<K>, ghost cur: K)
      requires Sane(owed, cur, []) && h in requests && requests[h].data.Some? && requests[h].deps == 0 && owed[h] == 0
      requires AllWait(requests, {h})
      modifies `requests, `batch, `order, `live, `kinds
      ensures Sane(owed, cur, []) && Advanced(old(Now()), Now()) && AllWait(requests, {})
      ensures h !in requests && h in batch && |live| < |old(live)| && old(order) < order
      decreases |live|, 0
    {
      hide Links;
      hide SyncInv;
      hide OwedOk;
      hide Advanced;
      hide OnTrack;
      hide Accounted;
      ghost var s0 := Now();
      ghost var i := Position(p, s0, owed, cur, h);
      CompleteInv(p, s0, owed, i, cur);
      CompleteOwed(p, s0, owed, i, cur);
      CompletedFacts(p, root, start, s0, merged, owed, i, cur);
      var req := requests[h];
      batch := batch[h := req.data.value];
      order := order + [h];
      requests := requests - {h};
      live := Drop(live, i);
      kinds := kinds[h := req.kind];
      ghost var s1 := Now();
      assert s1 == Completed(s0, i);
      AdvancedOnTrack(p, root, s0, s1, queue, fetching, bloom);
      TellAll(req.parents, owed, cur);
      AdvancedTrans(s0, s1, Now());
      AdvancedGone(s1, Now(), h);
    }

    /** Missing: hands out queued hashes in any order the priorities may give, all of them or at most max. */
    method Missing(max: nat, ghost cur: K) returns (hs: seq<K>)
      requires Sane(multiset{}, cur, [])
      modifies `queue, `fetching
      ensures Sane(multiset{}, cur, []) && old(multiset(queue)) == multiset(hs) + multiset(queue)
      ensures max == 0 ==> queue == []
      ensures max > 0 ==> |hs| <= max && (queue != [] ==> |hs| == max)
    {
      hide SyncInv;
      hide Accounted;
      hs := [];
      while |queue| > 0 && (max == 0 || |hs| < max)
        invariant Sane(multiset{}, cur, []) && old(multiset(queue)) == multiset(hs) + multiset(queue)
        invariant max > 0 ==> |hs| <= max
        decreases |queue|
      {
        var i :| 0 <= i < |queue|;
        assert queue == queue[..i] + [queue[i]] + queue[i + 1..];
        hs, fetching, queue := hs + [queue[i]], fetching + {queue[i]}, queue[..i] + queue[i + 1..];
      }
    }

    /**
     * Process: items in turn, up to the first that is refused. The trace holds the states before and
     * after each item that was processed; the refused one is judged by the last of them.
     */
    method Process(results: seq<Item<K>>, ghost cur0: K)
      returns (committed: bool, index: nat, o: Outcome, ghost cur: K, ghost trace: seq<State<K>>)
      requires Sane(multiset{}, cur0, []) && AllWait(requests, {})
      requires forall i :: 0 <= i < |results| ==>
        results[i].data == p.blob(results[i].hash) && p.genuine(results[i].hash)
      modifies `requests, `batch, `order, `live, `queue, `merged, `kinds
      ensures Sane(multiset{}, cur, []) && AllWait(requests, {})
      ensures |trace| > 0 && trace[0] == old(Now()) && trace[|trace| - 1] == Now() && Processed(p, results, trace)
      ensures o == Fine ==> |trace| == |results| + 1 && index == 0
      ensures o != Fine ==> index < |results| && |trace| == index + 1 && o == Verdict(p, Now(), results[index].hash)
      ensures old(order) <= order && (committed <==> |order| > |old(order)|)
    {
      hide SyncInv;
      hide AllWait;
      hide OnTrack;
      hide Accounted;
      hide Fed;
      committed, cur, trace := false, cur0, [Now()];
      for i := 0 to |results|
        invariant Sane(multiset{}, cur, []) && AllWait(requests, {})
        invariant |trace| == i + 1 && trace[0] == old(Now()) && trace[i] == Now() && Processed(p, results, trace)
        invariant old(order) <= order && (committed <==> |order| > |old(order)|)
      {
        var done;
        ghost var s := Now();
        o, done := ProcessOne(results[i], cur);
        cur := results[i].hash;
        if o != Fine {
          return committed, i, o, cur, trace;
        }
        ProcessedMore(p, results, trace, Now());
        trace := trace + [Now()];
        committed := committed || done;
      }
      return committed, 0, Fine, cur, trace;
    }

    /** The loop of Commit. */
    method WriteOut(quota: nat, ghost cur: K) returns (written: nat)
      requires Sane(multiset{}, cur, [])
      modifies `database, `bloom
      ensures Sane(multiset{}, cur, []) && written == (if quota < |order| then quota else |order|)
      ensures forall h :: h in database <==> h in old(database) || h in order[..written]
    {
      hide SyncInv;
      hide Flushed;
      hide OnTrack;
      hide Accounted;
      ghost var s0 := Now();
      InBatch(p, s0, cur);
      written := 0;
      FlushStart(p, root, s0, queue, fetching, bloom);
      while written < |order| && written < quota
        invariant written <= |order| && written <= quota
        invariant database == Flushed(s0.db, s0.batch, s0.order, written)
        invariant OnTrack(p, root, s0.(db := database), queue, fetching, bloom)
      {
        FlushNext(p, root, s0, written, queue, fetching, bloom);
        var key := order[written];
        database := database[key := batch[key]];
        bloom := bloom + {key};
        written := written + 1;
      }
      PrefixInv(p, s0, multiset{}, cur, [], written);
      FlushedKeys(s0.db, s0.batch, s0.order, written);
      assert Now() == s0.(db := database);
      AccountedKept(p, root, start, s0, Now(), merged, cur, []);
    }

    /**
     * Commit: the buffer is written in order. The database accepts quota more entries; wherever it
     * stops, it is closed.
     */
    method Commit(quota: nat, ghost cur: K) returns (written: nat, ok: bool)
      requires Sane(multiset{}, cur, []) && AllWait(requests, {})
      modifies `database, `batch, `order, `bloom
      ensures Sane(multiset{}, cur, []) && AllWait(requests, {})
      ensures written <= |old(order)| && ok == (quota >= |old(order)|)
      ensures ok ==> written == |old(order)| && order == []
      ensures forall h :: h in database <==> h in old(database) || h in old(order)[..written]
    {
      hide SyncInv;
      hide AllWait;
      hide OnTrack;
      hide Accounted;
      written := WriteOut(quota, cur);
      ok := written == |order|;
      if ok {
        ghost var s1 := Now();
        InBatch(p, s1, cur);
        assert order[..written] == order;
        DrainInv(p, s1, multiset{}, cur, []);
        DrainOnTrack(p, root, s1, queue, fetching, bloom);
        batch, order := map[], [];
        assert Now() == s1.(batch := map[], order := []);
        AccountedKept(p, root, start, s1, Now(), merged, cur, []);
      }
    }

    /** Telling the parents of a completed request. */
    method TellAll(ps: seq<K>, ghost owed: multiset<K>, ghost cur: K)
      requires Sane(owed + multiset(ps), cur, []) && AllWait(requests, {})
      modifies `requests, `batch, `order, `live, `kinds
      ensures Sane(owed, cur, []) && Advanced(old(Now()), Now()) && AllWait(requests, {}) && old(order) <= order
      decreases |live|, 1
    {
      hide Links;
      hide SyncInv;
      hide OwedOk;
      hide Advanced;
      hide OnTrack;
      hide Accounted;
      ghost var s0 := Now();
      AdvancedSelf(s0);
      assert ps[0..] == ps;
      for j := 0 to |ps|
        invariant Sane(owed + multiset(ps[j..]), cur, []) && Advanced(s0, Now()) && AllWait(requests, {})
        invariant s0.order <= order && |live| <= |s0.live|
      {
        ghost var due, rest := owed + multiset(ps[j..]), owed + multiset(ps[j + 1..]);
        OneLess(owed, ps, j);
        OwedIn(Now(), due, ps[j]);
        TellInv(p, Now(), due, ps[j], cur);
        ToldAdvanced(s0, Now(), due, rest, ps[j]);
        AccountedTold(p, root, start, Now(), merged, cur, ps[j]);
        requests := Told(requests, ps[j]);
        AdvancedOnTrack(p, root, s0, Now(), queue, fetching, bloom);
        if requests[ps[j]].deps == 0 {
          ghost var s1 := Now();
          SettledOne(p, s1, rest, cur, ps[j]);
          CommitRequest(ps[j], rest, cur);
          AdvancedTrans(s0, s1, Now());
        }
      }
      assert ps[|ps|..] == [];
      assert owed + multiset(ps[|ps|..]) == owed;
    }
  }

  lemma ValidOf<K(!new)>(p: Plan<K>, s: State<K>, owed: multiset<K>, cur: K, todo: seq<Entry<K>>)
    requires SyncInv(p, s, owed, cur, todo)
    ensures p.Valid()
  {}

  /** What a received node refers to is there or pending. */
  lemma RefPending<K(!new)>(p: Plan<K>, s: State<K>, cur: K, h: K, x: Entry<K>)
    requires SyncInv(p, s, multiset{}, cur, []) && h in s.reqs && s.reqs[h].data.Some? && x in RefsOf(p, s, h)
    ensures Present(p, s, x) || x.hash in s.reqs
  {
    hide Ordered;
    hide Enumerated;
    hide Faithful;
    hide DepsCounted;
    hide Upward;
    hide ClosedDb;
    hide p.Valid;
    hide p.Refs;
  }

  lemma StoredGenuine<K(!new)>(p: Plan<K>, s: State<K>, cur: K)
    requires SyncInv(p, s, multiset{}, cur, [])
    ensures forall h :: h in s.db ==> s.db[h] == p.blob(h) && p.genuine(h)
  {
    hide Links;
    hide Distinct;
    hide Askable;
    hide Awaited;
    hide Ordered;
  }

  lemma AnyCur<K(!new)>(p: Plan<K>, s: State<K>, cur: K, h: K)
    requires SyncInv(p, s, multiset{}, cur, [])
    ensures SyncInv(p, s, multiset{}, h, [])
  {
    hide Links;
    hide Distinct;
  }

  lemma ReceivedOnTrack<K(!new)>(p: Plan<K>, root: Entry<K>, s: State<K>, h: K, data: seq<byte>, queue: seq<K>,
                                 fetching: set<K>, bloom: set<K>)
    requires OnTrack(p, root, s, queue, fetching, bloom) && h in s.reqs
    ensures OnTrack(p, root, s.(reqs := Received(s.reqs, h, data)), queue, fetching, bloom)
  {}

  lemma DepsNonneg<K(!new)>(p: Plan<K>, s: State<K>, h: K, todo: seq<Entry<K>>)
    requires SyncInv(p, s, multiset{}, h, todo) && h in s.reqs
    ensures s.reqs[h].deps >= 0
  {
    hide Links;
    hide Distinct;
    hide Awaited;
    hide Ordered;
    NoLinks(s.reqs, s.live, h);
  }

  lemma WaitScheduled<K(!new)>(p: Plan<K>, s: State<K>, cur: K, todo: seq<Entry<K>>, e: Entry<K>)
    requires SyncInv(p, s, multiset{}, cur, todo) && todo != [] && todo[0] == e && Askable(p, s, e)
    requires cur in s.reqs && s.reqs[cur].data.Some? && e in RefsOf(p, s, cur)
    ensures SyncInv(p, Scheduled(s.(reqs := Waiting(s.reqs, cur, 1)), e, [cur]), multiset{}, cur, todo[1..])
  {
    hide SyncInv;
    hide Scheduled;
    RankBelow(p, s, multiset{}, cur, todo, e);
    hide p.Refs;
    var s1 := s.(reqs := Waiting(s.reqs, cur, 1));
    assert Askable(p, s1, e);
    hide Askable;
    WaitInv(p, s, multiset{}, cur, todo, multiset{cur}, 1);
    assert multiset{} + multiset{cur} == multiset{cur};
    ScheduleInv(p, s1, multiset{cur}, e, cur, todo);
    assert multiset{cur} - multiset{cur} == multiset{};
  }

  /** One child of the current node after the other, with the counter raised for all of them at once. */
  lemma ScheduleNext<K(!new)>(p: Plan<K>, s: State<K>, cur: K, cs: seq<K>, callback: nat, j: nat)
    requires j < |cs| && SyncInv(p, s, Copies(cur, |cs| - j), cur, Nodes(cs, callback)[j..]) && !s.Known(cs[j])
    requires cur in s.reqs && s.reqs[cur].data.Some? && Nodes(cs, callback)[j] in RefsOf(p, s, cur)
    ensures SyncInv(p, Scheduled(s, Nodes(cs, callback)[j], [cur]), Copies(cur, |cs| - j - 1), cur,
      Nodes(cs, callback)[j + 1..])
  {
    hide SyncInv;
    hide Scheduled;
    var es := Nodes(cs, callback);
    RankBelow(p, s, Copies(cur, |cs| - j), cur, es[j..], es[j]);
    hide p.Refs;
    CopiesLess(cur, |cs| - j);
    ScheduleInv(p, s, Copies(cur, |cs| - j), es[j], cur, es[j..]);
    assert es[j..][1..] == es[j + 1..];
  }

  lemma CopiesLess<K(!new)>(h: K, n: nat)
    requires n > 0
    ensures Copies(h, n) - multiset{h} == Copies(h, n - 1) && Copies(h, n)[h] > 0
  {}

  lemma RankBelow<K(!new)>(p: Plan<K>, s: State<K>, owed: multiset<K>, cur: K, todo: seq<Entry<K>>, e: Entry<K>)
    requires SyncInv(p, s, owed, cur, todo) && cur in s.reqs && e in RefsOf(p, s, cur)
    ensures p.rank(e.hash) < p.rank(cur)
  {
    ValidOf(p, s, owed, cur, todo);
    hide SyncInv;
  }

  lemma ScheduledRest<K(!new)>(s: State<K>, e: Entry<K>, cur: K, n: nat)
    requires AllWait(s.reqs, {}) && cur in s.reqs && s.reqs[cur].data.Some?
    ensures var s' := Scheduled(s, e, [cur]); AllWait(s'.reqs, {}) && OwedOk(s', Copies(cur, n))
  {
    hide Scheduled;
    ScheduleSame(s, e, [cur]);
  }

  lemma BelowRest<K(!new)>(p: Plan<K>, root: Entry<K>, s: State<K>, e: Entry<K>, cur: K, queue: seq<K>,
                           fetching: set<K>, bloom: set<K>)
    requires OnTrack(p, root, s, queue, fetching, bloom) && AllWait(s.reqs, {cur}) && cur in s.reqs
    ensures var s1 := s.(reqs := Waiting(s.reqs, cur, 1));
      OnTrack(p, root, s1, queue, fetching, bloom) && AllWait(Scheduled(s1, e, [cur]).reqs, {cur})
  {
    hide Scheduled;
    ScheduleSame(s.(reqs := Waiting(s.reqs, cur, 1)), e, [cur]);
  }

  lemma WaitingRest<K(!new)>(p: Plan<K>, root: Entry<K>, s: State<K>, cur: K, n: nat, queue: seq<K>, fetching: set<K>,
                             bloom: set<K>)
    requires OnTrack(p, root, s, queue, fetching, bloom) && AllWait(s.reqs, {cur}) && cur in s.reqs
    requires s.reqs[cur].data.Some?
    requires s.reqs[cur].deps >= 0 && (n > 0 || s.reqs[cur].deps != 0)
    ensures var s' := s.(reqs := Waiting(s.reqs, cur, n));
      OnTrack(p, root, s', queue, fetching, bloom) && AllWait(s'.reqs, {}) && OwedOk(s', Copies(cur, n))
  {}

  function Copies<K(!new)>(h: K, n: nat): (m: multiset<K>)
    ensures forall x :: m[x] == if x == h then n else 0
  {
    multiset{}[h := n]
  }

  lemma FlushStart<K(!new)>(p: Plan<K>, root: Entry<K>, s: State<K>, queue: seq<K>, fetching: set<K>, bloom: set<K>)
    requires OnTrack(p, root, s, queue, fetching, bloom) && forall h :: h in s.order ==> h in s.batch
    ensures Flushed(s.db, s.batch, s.order, 0) == s.db && s.(db := s.db) == s
  {}

  lemma FlushNext<K(!new)>(p: Plan<K>, root: Entry<K>, s: State<K>, k: nat, queue: seq<K>, fetching: set<K>,
                           bloom: set<K>)
    requires k < |s.order| && forall h :: h in s.order ==> h in s.batch
    requires OnTrack(p, root, s.(db := Flushed(s.db, s.batch, s.order, k)), queue, fetching, bloom)
    ensures
      var (h, db') := (s.order[k], Flushed(s.db, s.batch, s.order, k + 1));
      && db' == Flushed(s.db, s.batch, s.order, k)[h := s.batch[h]]
      && OnTrack(p, root, s.(db := db'), queue, fetching, bloom + {h})
  {}

  lemma DrainOnTrack<K(!new)>(p: Plan<K>, root: Entry<K>, s: State<K>, queue: seq<K>, fetching: set<K>, bloom: set<K>)
    requires OnTrack(p, root, s, queue, fetching, bloom) && forall h :: h in s.batch ==> h in s.db
    ensures OnTrack(p, root, s.(batch := map[], order := []), queue, fetching, bloom)
  {}

  lemma InBatch<K(!new)>(p: Plan<K>, s: State<K>, cur: K)
    requires SyncInv(p, s, multiset{}, cur, [])
    ensures forall h :: h in s.order <==> h in s.batch
  {
    hide Links;
    hide Distinct;
    hide Awaited;
    hide Ordered;
  }

  lemma OneLess<K(!new)>(owed: multiset<K>, ps: seq<K>, j: nat)
    requires j < |ps|
    ensures (owed + multiset(ps[j..])) - multiset{ps[j]} == owed + multiset(ps[j + 1..])
    ensures (owed + multiset(ps[j..]))[ps[j]] > 0
  {
    assert ps[j..] == [ps[j]] + ps[j + 1..];
  }

  /** Pending is zero only when the root is there; whether all it leads to is, CompleteIff says. */
  lemma NothingPending<K(!new)>(p: Plan<K>, root: Entry<K>, start: map<K, Kind>, s: State<K>, merged: set<Entry<K>>,
                                cur: K, queue: seq<K>, fetching: set<K>, bloom: set<K>)
    requires SyncInv(p, s, multiset{}, cur, []) && Accounted(p, root, start, s, merged, cur, [])
    requires OnTrack(p, root, s, queue, fetching, bloom) && |s.reqs| == 0
    ensures Present(p, s, root)
    ensures Complete(p, s, root) <==> forall m :: m in merged ==> Complete(p, s, m)
    ensures merged == {} ==> Complete(p, s, root)
  {
    assert s.reqs.Keys == {};
    assert s.reqs == map[];
    hide SyncInv;
    hide Accounted;
    hide Complete;
    CompleteIff(p, root, start, s, merged, cur);
  }

  /** As long as something is pending, some hash is queued or has been handed out. */
  lemma SomethingQueued<K(!new)>(p: Plan<K>, root: Entry<K>, s: State<K>, cur: K, queue: seq<K>, fetching: set<K>,
                                 bloom: set<K>)
    returns (c: K)
    requires SyncInv(p, s, multiset{}, cur, []) && OnTrack(p, root, s, queue, fetching, bloom) && AllWait(s.reqs, {})
    requires |s.reqs| > 0
    ensures c in s.reqs && s.reqs[c].data == None && (c in queue || c in fetching)
  {
    hide SyncInv;
    var h :| h in s.reqs;
    c := SomethingToFetch(p, s, cur, h);
  }

  /** What is there refers only to what is there, as a kind that covers it. */
  ghost predicate AllMet<K(!new)>(p: Plan<K>, kinds: map<K, Kind>) {
    forall h, x :: h in kinds && x in p.Refs(Entry(h, kinds[h])) ==>
      p.Void(x) || (x.hash in kinds && p.Covered(x, kinds[x.hash]))
  }

  lemma StartInv<K(!new)>(p: Plan<K>, kinds: map<K, Kind>, db: map<K, seq<byte>>, cur: K)
    requires p.Valid() && ClosedDb(p, kinds, db) && kinds.Keys == db.Keys
    requires forall h :: h in db ==> db[h] == p.blob(h) && p.genuine(h)
    ensures SyncInv(p, State(map[], [], db, map[], [], kinds), multiset{}, cur, [])
  {}

  lemma StartAccounted<K(!new)>(p: Plan<K>, root: Entry<K>, start: map<K, Kind>, s: State<K>)
    requires AllMet(p, start) && s.kinds == start && (root.hash in s.reqs || root.hash in s.kinds || p.Void(root))
    requires forall h :: h in s.reqs ==> h == root.hash && s.reqs[h].kind == root.kind && s.reqs[h].data == None
    ensures Accounted(p, root, start, s, Unmet(p, s, root), root.hash, [])
  {
    ReachSelf(p, root);
    UnmetAnswered(p, s, {}, root);
    assert {} + Unmet(p, s, root) == Unmet(p, s, root);
    assert Sourced(p, root, start, s, {});
    UnmetClashes(p, root, start, s, {}, root);
    hide Reaches;
    hide Clashes;
    hide p.Covered;
  }

  lemma Position<K(!new)>(p: Plan<K>, s: State<K>, owed: multiset<K>, cur: K, h: K) returns (i: nat)
    requires SyncInv(p, s, owed, cur, []) && h in s.reqs && s.reqs[h].deps == 0 && owed[h] == 0
    ensures i < |s.live| && s.live[i] == h && Links(s.reqs, s.live, h) == 0
  {
    hide Links;
    hide Distinct;
    hide Awaited;
    hide Ordered;
    i :| 0 <= i < |s.live| && s.live[i] == h;
  }

  lemma CompleteOwed<K(!new)>(p: Plan<K>, s: State<K>, owed: multiset<K>, i: nat, cur: K)
    requires SyncInv(p, s, owed, cur, []) && OwedOk(s, owed) && i < |s.live| && s.live[i] in s.reqs
    requires s.reqs[s.live[i]].data.Some?
    requires owed[s.live[i]] == 0 && Links(s.reqs, s.live, s.live[i]) == 0
    ensures OwedOk(Completed(s, i), owed + multiset(s.reqs[s.live[i]].parents))
  {
    hide Links;
    hide Distinct;
    hide Awaited;
    hide Ordered;
    hide Upward;
    hide Faithful;
    hide DepsCounted;
    hide ClosedDb;
    hide OwedOk;
    hide Completed;
    hide Askable;
    NoLinks(s.reqs, s.live, s.live[i]);
    CompleteOwes(p, s, owed, i);
  }

  lemma CompleteOwes<K(!new)>(p: Plan<K>, s: State<K>, owed: multiset<K>, i: nat)
    requires Upward(p, s) && OwedOk(s, owed) && i < |s.live| && s.live[i] in s.reqs && owed[s.live[i]] == 0
    requires s.reqs[s.live[i]].data.Some? && s.live[i] !in s.reqs[s.live[i]].parents
    ensures OwedOk(Completed(s, i), owed + multiset(s.reqs[s.live[i]].parents))
  {
    var h := s.live[i];
    var ps := s.reqs[h].parents;
    forall x | x in owed + multiset(ps)
      ensures x != h && x in s.reqs && s.reqs[x].data.Some?
    {
      if x in ps {
        assert x in s.reqs;
      } else {
        assert multiset(ps)[x] == 0;
        assert x in owed;
      }
    }
  }

  lemma SettledOne<K(!new)>(p: Plan<K>, s: State<K>, owed: multiset<K>, cur: K, h: K)
    requires SyncInv(p, s, owed, cur, []) && h in s.reqs && s.reqs[h].deps == 0
    ensures owed[h] == 0
  {
    hide Links;
    hide Distinct;
    hide Awaited;
    hide Ordered;
    NoLinks(s.reqs, s.live, h);
  }

  /** What the current node refers to is led to by the root. */
  lemma RefReached<K(!new)>(p: Plan<K>, root: Entry<K>, start: map<K, Kind>, s: State<K>, merged: set<Entry<K>>,
                            owed: multiset<K>, cur: K, todo: seq<Entry<K>>, x: Entry<K>)
    requires SyncInv(p, s, owed, cur, todo) && Accounted(p, root, start, s, merged, cur, todo)
    requires cur in s.reqs && s.reqs[cur].data.Some? && x in RefsOf(p, s, cur)
    ensures Reaches(p, root, x) && p.rank(x.hash) < p.rank(cur)
  {
    hide Links;
    hide Distinct;
    hide Awaited;
    hide Ordered;
    hide Settled;
    hide Answered;
    hide Reaches;
    hide Clashes;
    ReachStep(p, root, Entry(cur, s.reqs[cur].kind), x);
  }

  lemma SkipOne<K(!new)>(p: Plan<K>, root: Entry<K>, start: map<K, Kind>, s: State<K>, merged: set<Entry<K>>, cur: K,
                         todo: seq<Entry<K>>)
    requires Accounted(p, root, start, s, merged, cur, todo) && todo != [] && Reaches(p, root, todo[0])
    requires todo[0].hash in s.reqs || todo[0].hash in s.kinds || p.Void(todo[0])
    ensures Accounted(p, root, start, s, merged + Unmet(p, s, todo[0]), cur, todo[1..])
  {
    UnmetClashes(p, root, start, s, merged, todo[0]);
    hide Accounted;
    hide Answered;
    hide Reaches;
    hide Clashes;
    var merged' := merged + Unmet(p, s, todo[0]);
    UnmetAnswered(p, s, merged, todo[0]);
    assert forall y :: y in todo ==> y == todo[0] || y in todo[1..];
    AccountedSkip(p, root, start, s, merged, merged', cur, todo, todo[1..]);
  }

  lemma AnsweredMore<K(!new)>(p: Plan<K>, s: State<K>, merged: set<Entry<K>>, e: Entry<K>)
    ensures Answered(p, s, merged + Unmet(p, s, e), e)
    ensures forall x :: Answered(p, s, merged, x) ==> Answered(p, s, merged + Unmet(p, s, e), x)
  {
    hide Met;
  }

  lemma AccountedWait<K(!new)>(p: Plan<K>, root: Entry<K>, start: map<K, Kind>, s: State<K>, merged: set<Entry<K>>,
                               cur: K, todo: seq<Entry<K>>, n: int)
    requires Accounted(p, root, start, s, merged, cur, todo) && cur in s.reqs
    ensures Accounted(p, root, start, s.(reqs := Waiting(s.reqs, cur, n)), merged, cur, todo)
  {
    hide Accounted;
    AccountedKept(p, root, start, s, s.(reqs := Waiting(s.reqs, cur, n)), merged, cur, todo);
  }

  lemma AccountedTold<K(!new)>(p: Plan<K>, root: Entry<K>, start: map<K, Kind>, s: State<K>, merged: set<Entry<K>>,
                               cur: K, h: K)
    requires Accounted(p, root, start, s, merged, cur, []) && h in s.reqs
    ensures Accounted(p, root, start, s.(reqs := Told(s.reqs, h)), merged, cur, [])
  {
    hide Accounted;
    AccountedKept(p, root, start, s, s.(reqs := Told(s.reqs, h)), merged, cur, []);
  }

  lemma CompletedFacts<K(!new)>(p: Plan<K>, root: Entry<K>, start: map<K, Kind>, s: State<K>, merged: set<Entry<K>>,
                                owed: multiset<K>, i: nat, cur: K)
    requires SyncInv(p, s, owed, cur, []) && Accounted(p, root, start, s, merged, cur, [])
    requires i < |s.live| && s.live[i] in s.reqs && s.reqs[s.live[i]].data.Some?
    ensures var s' := Completed(s, i);
      && Advanced(s, s') && s.live[i] in s'.batch && s.live[i] !in s'.reqs && |s'.live| < |s.live|
      && Accounted(p, root, start, s', merged, cur, [])
  {
    CompletedAdvanced(p, s, i);
    hide SyncInv;
    hide Accounted;
    AccountedKept(p, root, start, s, Completed(s, i), merged, cur, []);
  }

  lemma FedWaiting<K(!new)>(p: Plan<K>, s: State<K>, e: Entry<K>, n: int)
    requires e.hash in s.reqs
    ensures Fed(p, s, s.(reqs := Waiting(s.reqs, e.hash, n)), e)
  {}

  lemma WaitingNone<K(!new)>(s: State<K>, h: K)
    requires h in s.reqs
    ensures s.(reqs := Waiting(s.reqs, h, 0)) == s
  {}

  lemma KnownKind<K(!new)>(p: Plan<K>, s: State<K>, owed: multiset<K>, cur: K, todo: seq<Entry<K>>, h: K)
    requires SyncInv(p, s, owed, cur, todo) && s.Known(h)
    ensures h in s.kinds
  {
    hide Links;
    hide Distinct;
    hide Askable;
    hide Awaited;
    hide Ordered;
  }

  lemma SourcedOf<K(!new)>(p: Plan<K>, root: Entry<K>, start: map<K, Kind>, s: State<K>, merged: set<Entry<K>>, cur: K,
                           todo: seq<Entry<K>>)
    requires Accounted(p, root, start, s, merged, cur, todo)
    ensures Sourced(p, root, start, s, merged)
  {}

  /** After the known children have been passed over. */
  lemma KidsSkipped<K(!new)>(p: Plan<K>, root: Entry<K>, start: map<K, Kind>, s: State<K>, merged: set<Entry<K>>,
                             merged': set<Entry<K>>, h: K, cs: seq<K>, callback: nat)
    requires SyncInv(p, s, multiset{}, h, Nodes(p.kids(h), callback))
    requires Accounted(p, root, start, s, merged, h, Nodes(p.kids(h), callback))
    requires h in s.reqs && s.reqs[h].data.Some? && s.reqs[h].kind == Node(callback) && merged <= merged'
    requires forall x :: x in p.kids(h) ==> x in cs || (s.Known(x) && Answered(p, s, merged', Entry(x, Node(callback))))
    requires forall m :: m in merged' && m !in merged ==>
      m.hash in p.kids(h) && m.kind == Node(callback) && s.Known(m.hash) && m in Unmet(p, s, m)
    ensures SyncInv(p, s, multiset{}, h, Nodes(cs, callback))
    ensures Accounted(p, root, start, s, merged', h, Nodes(cs, callback))
  {
    hide SyncInv;
    hide Accounted;
    hide Answered;
    hide Reaches;
    hide Clashes;
    var todo, todo' := Nodes(p.kids(h), callback), Nodes(cs, callback);
    forall x | x in todo
      ensures x in todo' || (Present(p, s, x) && Answered(p, s, merged', x))
    {
      NodesMember(p.kids(h), callback, x);
      NodesMember(cs, callback, x);
    }
    SkipInv(p, s, multiset{}, h, todo, todo');
    forall m | m in merged' && m !in merged
      ensures Reaches(p, root, m) && Clashes(p, root, start, m)
    {
      NodesMember(p.kids(h), callback, m);
      RefReached(p, root, start, s, merged, multiset{}, h, todo, m);
      KnownKind(p, s, multiset{}, h, todo, m.hash);
      SourcedOf(p, root, start, s, merged, h, todo);
      UnmetClashes(p, root, start, s, merged, m);
    }
    AccountedSkip(p, root, start, s, merged, merged', h, todo, todo');
  }

  // ---- whole runs ----

  /** The states before and after each processed item. */
  ghost predicate Processed<K(!new)>(p: Plan<K>, results: seq<Item<K>>, trace: seq<State<K>>) {
    && |trace| <= |results| + 1
    && forall i :: 0 <= i < |trace| - 1 ==> FedBy(p, trace[i], trace[i + 1], results[i].hash)
  }

  ghost predicate FedBy<K(!new)>(p: Plan<K>, s: State<K>, s': State<K>, h: K) {
    Verdict(p, s, h) == Fine && Fed(p, s, s', Entry(h, s.reqs[h].kind))
  }

  lemma ProcessedMore<K(!new)>(p: Plan<K>, results: seq<Item<K>>, trace: seq<State<K>>, s: State<K>)
    requires 0 < |trace| <= |results| && Processed(p, results, trace)
    requires FedBy(p, trace[|trace| - 1], s, results[|trace| - 1].hash)
    ensures Processed(p, results, trace + [s])
  {
    hide FedBy;
  }
}
