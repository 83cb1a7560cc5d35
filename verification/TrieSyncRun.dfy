/**
 * Whole runs of the sync scheduler (proton/trie/sync.go), and one that leaves a trie incomplete: the
 * first request for a hash decides whether it is expanded, and a later one only joins it.
 */
module TrieSyncRun {
  import opened Bytes
  import opened TrieSync

  /** What a client calls: Missing, Process and Commit. */
  datatype Call<K> = Fetch(max: nat) | Deliver(results: seq<Item<K>>) | Write(quota: nat)

  /** Delivered blobs hash to what they were delivered as. */
  ghost predicate Honest<K(!new)>(p: Plan<K>, results: seq<Item<K>>) {
    forall i :: 0 <= i < |results| ==> results[i].data == p.blob(results[i].hash) && p.genuine(results[i].hash)
  }

  /** A scheduler that any run from NewSync may lead to. */
  ghost predicate Running<K(!new)>(sync: Sync<K>, cur: K)
    reads sync
  {
    sync.Sane(multiset{}, cur, []) && AllWait(sync.requests, {})
  }

  /**
   * After any run, if nothing is pending, all that the root leads to is there exactly if the same
   * holds of every entry whose hash was first asked for as a kind that refers to less. If no hash is
   * wanted as two kinds that refer to different entries, or as two that lead to different hashes, it
   * always does. As long as something is pending, something is still to be delivered and has been
   * queued or handed out.
   */
  method Run<K(!new, ==)>(p: Plan<K>, root: K, callback: nat, database: map<K, seq<byte>>, bloom: set<K>,
                          ghost start: map<K, Kind>, calls: seq<Call<K>>) returns (sync: Sync<K>, ghost cur: K)
    requires p.Valid() && ClosedDb(p, start, database) && AllMet(p, start) && start.Keys == database.Keys
    requires forall h :: h in database ==> h in bloom && database[h] == p.blob(h) && p.genuine(h)
    requires forall c :: c in calls && c.Deliver? ==> Honest(p, c.results)
    ensures fresh(sync) && Running(sync, cur) && sync.p == p && sync.root == Entry(root, Node(callback))
    ensures sync.start == start
    ensures sync.requests == map[] ==>
      (Complete(p, sync.Now(), sync.root) <==> forall m :: m in sync.merged ==> Complete(p, sync.Now(), m))
    ensures sync.requests == map[] && (Unmixed(p, sync.root, start) || Agreeing(p, sync.root, start)) ==>
      Complete(p, sync.Now(), sync.root)
    ensures sync.requests != map[] ==> exists h :: Outstanding(sync, h)
  {
    hide SyncInv;
    hide Accounted;
    hide AllWait;
    hide OnTrack;
    hide Complete;
    hide Unmixed;
    hide Agreeing;
    hide AllMet;
    hide ClosedDb;
    sync := new Sync(p, root, callback, database, bloom, start);
    cur := root;
    for i := 0 to |calls|
      invariant fresh(sync) && Running(sync, cur) && sync.p == p && sync.root == Entry(root, Node(callback))
      invariant sync.start == start && start.Keys <= sync.database.Keys
    {
      cur := Step(sync, calls[i], cur);
    }
    Meaning(sync, cur);
    if sync.requests == map[] && Agreeing(p, sync.root, start) {
      RunAgreeing(sync, cur);
    }
  }

  ghost predicate Outstanding<K(!new)>(sync: Sync<K>, h: K)
    reads sync
  {
    h in sync.requests && sync.requests[h].data == None && (h in sync.queue || h in sync.fetching)
  }

  // ---- kinds that lead to the same hashes ----

  /** Whatever the entry leads to is void, or its hash is led to from its own hash as the given kind. */
  ghost predicate SameBelow<K(!new)>(p: Plan<K>, e: Entry<K>, k: Kind) {
    forall y :: Reaches(p, e, y) ==>
      p.Void(y) || exists z :: Reaches(p, Entry(e.hash, k), z) && z.hash == y.hash && !p.Void(z)
  }

  /** No hash is wanted as two kinds that lead to different hashes. */
  ghost predicate Agreeing<K(!new)>(p: Plan<K>, root: Entry<K>, start: map<K, Kind>) {
    forall x, k :: Reaches(p, root, x) && Wanted(p, root, start, Entry(x.hash, k)) ==> SameBelow(p, x, k)
  }

  /** What was there from the start leads only to what was. */
  lemma {:induction false} StartPath<K(!new)>(p: Plan<K>, start: map<K, Kind>, path: seq<Entry<K>>)
    requires AllMet(p, start) && Path(p, path) && path[0].hash in start && p.Covered(path[0], start[path[0].hash])
    ensures var x := path[|path| - 1]; p.Void(x) || (x.hash in start && p.Covered(x, start[x.hash]))
    decreases |path|
  {
    if |path| > 1 {
      var init := path[..|path| - 1];
      StartPath(p, start, init);
      var (e, x) := (init[|init| - 1], path[|path| - 1]);
      assert e == path[|path| - 2] && x in p.Refs(e);
    }
  }

  lemma StartComplete<K(!new)>(p: Plan<K>, start: map<K, Kind>, s: State<K>, h: K)
    requires AllMet(p, start) && h in start && forall x :: x in start ==> s.Known(x)
    ensures Complete(p, s, Entry(h, start[h]))
  {
    forall x | Reaches(p, Entry(h, start[h]), x)
      ensures Present(p, s, x)
    {
      var path :| Leads(p, path, Entry(h, start[h]), x);
      StartPath(p, start, path);
    }
  }

  /** A path either stays where it is or goes on from a reference. */
  lemma ReachSplit<K(!new)>(p: Plan<K>, a: Entry<K>, b: Entry<K>) returns (x: Entry<K>)
    requires Reaches(p, a, b) && a != b
    ensures !p.Void(a) && x in p.Refs(a) && Reaches(p, x, b)
  {
    var path :| Leads(p, path, a, b);
    x := path[1];
    var rest := path[1..];
    forall i | 0 <= i < |rest| - 1
      ensures !p.Void(rest[i]) && rest[i + 1] in p.Refs(rest[i])
    {
      assert rest[i] == path[i + 1] && rest[i + 1] == path[i + 2];
    }
    assert Leads(p, rest, x, b);
  }

  /** With nothing pending, an entry that is there leads to nothing that is not, whatever it was expanded as. */
  lemma {:induction false} AgreeingBelow<K(!new)>(p: Plan<K>, root: Entry<K>, start: map<K, Kind>, s: State<K>,
                                                  merged: set<Entry<K>>, cur: K, e: Entry<K>)
    requires SyncInv(p, s, multiset{}, cur, []) && Sourced(p, root, start, s, merged) && Agreeing(p, root, start)
    requires AllMet(p, start) && (forall x :: x in start ==> s.Known(x)) && Reaches(p, root, e) && Present(p, s, e)
    ensures Complete(p, s, e)
    decreases p.rank(e.hash), 1
  {
    hide SyncInv;
    hide Reaches;
    hide AllMet;
    KindsKnown(p, s, cur);
    forall y | Reaches(p, e, y)
      ensures Present(p, s, y)
    {
      if y != e && !p.Void(y) {
        var _ := ReachSplit(p, e, y);
        var f := Entry(e.hash, s.kinds[e.hash]);
        assert Wanted(p, root, start, f);
        ExpandedBelow(p, root, start, s, merged, cur, f);
        assert SameBelow(p, e, f.kind);
        var z :| Reaches(p, f, z) && z.hash == y.hash && !p.Void(z);
        assert Present(p, s, z);
      }
    }
  }

  lemma KindsKnown<K(!new)>(p: Plan<K>, s: State<K>, cur: K)
    requires SyncInv(p, s, multiset{}, cur, [])
    ensures forall h :: h in s.kinds <==> s.Known(h)
  {}

  lemma {:induction false} ExpandedBelow<K(!new)>(p: Plan<K>, root: Entry<K>, start: map<K, Kind>, s: State<K>,
                                                  merged: set<Entry<K>>, cur: K, f: Entry<K>)
    requires SyncInv(p, s, multiset{}, cur, []) && Sourced(p, root, start, s, merged) && Agreeing(p, root, start)
    requires AllMet(p, start) && (forall x :: x in start ==> s.Known(x))
    requires f.hash in s.kinds && s.kinds[f.hash] == f.kind
    ensures Complete(p, s, f)
    decreases p.rank(f.hash), 0
  {
    hide SyncInv;
    hide Reaches;
    hide AllMet;
    hide Agreeing;
    KindsKnown(p, s, cur);
    if !Reaches(p, root, f) {
      StartComplete(p, start, s, f.hash);
    } else {
      forall y | Reaches(p, f, y)
        ensures Present(p, s, y)
      {
        if y != f {
          var x := ReachSplit(p, f, y);
          KnownBelow(p, s, multiset{}, cur, f.hash, x);
          ReachStep(p, root, f, x);
          RefsLower(p, s, cur, f, x);
          AgreeingBelow(p, root, start, s, merged, cur, x);
        }
      }
    }
  }

  lemma RefsLower<K(!new)>(p: Plan<K>, s: State<K>, cur: K, e: Entry<K>, x: Entry<K>)
    requires SyncInv(p, s, multiset{}, cur, []) && x in p.Refs(e)
    ensures p.rank(x.hash) < p.rank(e.hash)
  {
    hide Enumerated;
    hide Faithful;
    hide DepsCounted;
    hide Upward;
    hide Awaited;
    hide Ordered;
    hide ClosedDb;
  }

  lemma RunAgreeing<K(!new)>(sync: Sync<K>, cur: K)
    requires Running(sync, cur) && sync.requests == map[] && Agreeing(sync.p, sync.root, sync.start)
    requires AllMet(sync.p, sync.start) && sync.start.Keys <= sync.database.Keys
    ensures Complete(sync.p, sync.Now(), sync.root)
  {
    hide SyncInv;
    hide AllWait;
    hide OnTrack;
    hide Complete;
    hide Agreeing;
    hide AllMet;
    hide Sourced;
    hide Settled;
    NothingPending(sync.p, sync.root, sync.start, sync.Now(), sync.merged, cur, sync.queue, sync.fetching, sync.bloom);
    ReachSelf(sync.p, sync.root);
    AgreeingBelow(sync.p, sync.root, sync.start, sync.Now(), sync.merged, cur, sync.root);
  }

  // ---- going on from an interrupted run ----

  ghost function Resumed<K(!new)>(s: State<K>): (kinds: map<K, Kind>) {
    map h | h in s.db && h in s.kinds :: s.kinds[h]
  }

  /**
   * If nothing was merged into less, and nothing that is stored is asked for again, which takes a blob
   * that does not decode, what has been written is a database to start from.
   */
  lemma Resumable<K(!new)>(sync: Sync<K>, cur: K)
    requires Running(sync, cur) && sync.merged == {} && forall h :: h in sync.requests ==> h !in sync.database
    ensures var kinds := Resumed(sync.Now());
      && kinds.Keys == sync.database.Keys && ClosedDb(sync.p, kinds, sync.database) && AllMet(sync.p, kinds)
      && sync.p.Valid() && forall h :: h in sync.database ==> sync.database[h] == sync.p.blob(h) && sync.p.genuine(h)
  {
    hide AllWait;
    hide OnTrack;
    hide Sourced;
    hide TrieDatabase.Distinct;
    hide Awaited;
    hide Upward;
    hide DepsCounted;
    hide Ordered;
    hide Askable;
    var (p, s, kinds) := (sync.p, sync.Now(), Resumed(sync.Now()));
    forall h, x | h in kinds && x in p.Refs(Entry(h, kinds[h]))
      ensures p.Void(x) || (x.hash in kinds && p.Covered(x, kinds[x.hash]))
    {
      assert Answered(p, s, {}, x);
    }
  }

  /** So a sync that was interrupted can be gone on with, for any root, and comes to the same conclusions. */
  method Resume<K(!new, ==)>(sync0: Sync<K>, root: K, callback: nat, bloom: set<K>, calls: seq<Call<K>>, ghost cur0: K)
    returns (sync: Sync<K>, ghost cur: K)
    requires Running(sync0, cur0) && sync0.merged == {} && forall h :: h in sync0.requests ==> h !in sync0.database
    requires forall h :: h in sync0.database ==> h in bloom
    requires forall c :: c in calls && c.Deliver? ==> Honest(sync0.p, c.results)
    ensures fresh(sync) && Running(sync, cur) && sync.p == sync0.p && sync.root == Entry(root, Node(callback))
    ensures sync.requests == map[] ==>
      (Complete(sync.p, sync.Now(), sync.root) <==> forall m :: m in sync.merged ==> Complete(sync.p, sync.Now(), m))
    ensures sync.requests != map[] ==> exists h :: Outstanding(sync, h)
  {
    hide Running;
    hide Complete;
    hide AllMet;
    hide ClosedDb;
    hide Unmixed;
    hide Agreeing;
    Resumable(sync0, cur0);
    sync, cur := Run(sync0.p, root, callback, sync0.database, bloom, Resumed(sync0.Now()), calls);
  }

  /** What the invariant says of a run. */
  lemma Meaning<K(!new)>(sync: Sync<K>, cur: K)
    requires Running(sync, cur)
    ensures sync.requests == map[] ==>
      (Complete(sync.p, sync.Now(), sync.root) <==> forall m :: m in sync.merged ==> Complete(sync.p, sync.Now(), m))
    ensures sync.requests == map[] && Unmixed(sync.p, sync.root, sync.start) ==> Complete(sync.p, sync.Now(), sync.root)
    ensures sync.requests != map[] ==> exists h :: Outstanding(sync, h)
  {
    hide SyncInv;
    hide Accounted;
    hide AllWait;
    hide OnTrack;
    hide Complete;
    hide Unmixed;
    if sync.requests == map[] {
      NothingPending(sync.p, sync.root, sync.start, sync.Now(), sync.merged, cur, sync.queue, sync.fetching,
        sync.bloom);
      NoneMerged(sync, cur);
    } else {
      var h := SomethingQueued(sync.p, sync.root, sync.Now(), cur, sync.queue, sync.fetching, sync.bloom);
      assert Outstanding(sync, h);
    }
  }

  lemma NoneMerged<K(!new)>(sync: Sync<K>, cur: K)
    requires Running(sync, cur)
    ensures Unmixed(sync.p, sync.root, sync.start) ==> sync.merged == {}
  {
    hide SyncInv;
    hide OnTrack;
    hide AllWait;
    hide Settled;
    hide Unmixed;
    if Unmixed(sync.p, sync.root, sync.start) {
      UnmixedMet(sync.p, sync.root, sync.start, sync.Now(), sync.merged);
    }
  }

  /** One call. */
  method Step<K(!new, ==)>(sync: Sync<K>, call: Call<K>, ghost cur: K) returns (ghost cur': K)
    requires Running(sync, cur) && (call.Deliver? ==> Honest(sync.p, call.results))
    modifies sync
    ensures Running(sync, cur')
    ensures old(sync.database.Keys) <= sync.database.Keys
  {
    hide SyncInv;
    hide Accounted;
    hide OnTrack;
    hide AllWait;
    cur' := cur;
    match call
    case Fetch(max) =>
      var _ := sync.Missing(max, cur);
    case Deliver(results) =>
      var committed, index, o;
      ghost var trace;
      committed, index, o, cur', trace := sync.Process(results, cur);
    case Write(quota) =>
      var _, _ := sync.Commit(quota, cur);
  }

  // ---- a run that leaves a trie incomplete ----

  /**
   * Node 5 has children 3 and 4, node 4 has child 2, and node 2 has child 1. The callback at the
   * leaf of node 3 asks for 2 as a raw entry.
   */
  function MixedPlan(): (p: Plan<nat>) {
    Plan(h => [h % 256], h => true, h => h != 0, MixedKids, MixedSubs, h => h, 0, 0)
  }

  function MixedKids(h: nat): (hs: seq<nat>) {
    if h == 5 then [3, 4] else if h == 4 then [2] else if h == 2 then [1] else []
  }

  function MixedSubs(h: nat, callback: nat): (es: seq<Entry<nat>>) {
    if h == 3 && callback == 1 then [Entry(2, Raw)] else []
  }

  lemma MixedRefs(e: Entry<nat>)
    ensures var xs := MixedPlan().Refs(e);
      && (e == Entry(5, Node(1)) ==> xs == [Entry(3, Node(1)), Entry(4, Node(1))])
      && (e == Entry(4, Node(1)) ==> xs == [Entry(2, Node(1))])
      && (e == Entry(3, Node(1)) ==> xs == [Entry(2, Raw)])
      && (e == Entry(2, Node(1)) ==> xs == [Entry(1, Node(1))])
      && (e == Entry(2, Raw) ==> xs == [])
      && forall x :: x in xs ==> x.hash < e.hash
  {
    if e.kind.Node? {
      var es := Nodes(MixedKids(e.hash), e.kind.callback);
      assert e == Entry(5, Node(1)) ==> es == [Entry(3, Node(1)), Entry(4, Node(1))];
      assert e == Entry(4, Node(1)) ==> es == [Entry(2, Node(1))];
      assert e == Entry(2, Node(1)) ==> es == [Entry(1, Node(1))];
      assert e == Entry(3, Node(1)) ==> es == [];
    }
  }

  lemma MixedValid()
    ensures MixedPlan().Valid()
  {
    forall e, x | x in MixedPlan().Refs(e)
      ensures MixedPlan().rank(x.hash) < MixedPlan().rank(e.hash)
    {
      MixedRefs(e);
    }
  }

  /** The root leads to 1. */
  lemma MixedPath()
    ensures Reaches(MixedPlan(), Entry(5, Node(1)), Entry(1, Node(1)))
  {
    var p := MixedPlan();
    var (r, a, b, c) := (Entry(5, Node(1)), Entry(4, Node(1)), Entry(2, Node(1)), Entry(1, Node(1)));
    MixedRefs(r);
    MixedRefs(a);
    MixedRefs(b);
    ReachSelf(p, r);
    hide Reaches;
    ReachStep(p, r, r, a);
    ReachStep(p, r, a, b);
    ReachStep(p, r, b, c);
  }

  /** How far the run has come: which hashes are pending and received, and that 2 is to be stored as it is. */
  ghost predicate Stage(s: State<nat>, pending: set<nat>, received: set<nat>) {
    && SyncInv(MixedPlan(), s, multiset{}, 5, []) && s.db == map[] && s.batch == map[] && s.reqs.Keys == pending
    && received <= pending
    && (forall h :: h in pending ==> s.reqs[h].kind == if h == 2 then Raw else Node(1))
    && forall h :: h in pending ==> (s.reqs[h].data.Some? <==> h in received)
  }

  lemma NotVoid(e: Entry<nat>)
    requires e.hash != 0
    ensures !MixedPlan().Void(e)
  {}

  /** The first in the buffer refers to nothing that is not there, so it is none of the nodes above 2. */
  lemma NothingDone(s: State<nat>, cur: nat)
    requires SyncInv(MixedPlan(), s, multiset{}, cur, []) && s.db == map[]
    requires forall h :: h in s.batch ==> h in {3, 4, 5} && h in s.kinds && s.kinds[h] == Node(1)
    ensures s.batch == map[]
  {
    hide MixedPlan;
    FirstVoid(MixedPlan(), s, cur);
    hide SyncInv;
    if s.order != [] {
      var e := Entry(s.order[0], Node(1));
      MixedRefs(e);
      NotVoid(MixedPlan().Refs(e)[0]);
      assert false;
    }
  }

  lemma FirstVoid<K(!new)>(p: Plan<K>, s: State<K>, cur: K)
    requires SyncInv(p, s, multiset{}, cur, []) && s.db == map[]
    ensures forall h :: h in s.batch <==> h in s.order
    ensures s.order != [] ==> s.order[0] in s.kinds
    ensures s.order != [] ==> forall x :: x in p.Refs(Entry(s.order[0], s.kinds[s.order[0]])) ==> p.Void(x)
  {
    hide Links;
    hide TrieDatabase.Distinct;
    hide Awaited;
    hide Upward;
    hide p.Refs;
    hide p.Void;
    if s.order != [] {
      assert s.order[..0] == [];
    }
  }

  /** Nothing is completed, so nothing leaves, and only what is referred to joins. */
  lemma StageGrown(s: State<nat>, s': State<nat>, h: nat, xs: seq<Entry<nat>>)
    requires s'.batch == map[] && Fed(MixedPlan(), s, s', Entry(h, Node(1)))
    requires MixedPlan().Refs(Entry(h, Node(1))) == xs
    ensures s'.db == s.db
    ensures forall x :: x in s.reqs ==>
      x in s'.reqs && s'.reqs[x].kind == s.reqs[x].kind && (x != h ==> s'.reqs[x].data == s.reqs[x].data)
    ensures forall x :: x in s'.reqs && x !in s.reqs ==> s'.reqs[x].data == None && Entry(x, s'.reqs[x].kind) in xs
  {
    hide MixedPlan;
  }

  lemma StageEmpty(s: State<nat>, s': State<nat>, h: nat, pending: set<nat>, received: set<nat>)
    requires Stage(s, pending, received) && h in pending && h in {3, 4, 5} && received <= {3, 4, 5}
    requires SyncInv(MixedPlan(), s', multiset{}, h, []) && Fed(MixedPlan(), s, s', Entry(h, Node(1)))
    ensures s'.batch == map[]
  {
    hide SyncInv;
    hide MixedPlan;
    DoneKinds(s', h);
    NothingDone(s', h);
  }

  /** What is buffered is not pending. */
  lemma DoneKinds(s: State<nat>, cur: nat)
    requires SyncInv(MixedPlan(), s, multiset{}, cur, [])
    ensures forall h :: h in s.batch ==> h !in s.reqs
  {
    hide Links;
    hide TrieDatabase.Distinct;
    hide Awaited;
    hide Ordered;
    hide MixedPlan;
  }

  /** A delivery of one of the nodes above 2, in a state where 2 is raw or will be. */
  lemma StageNext(s: State<nat>, s': State<nat>, h: nat, pending: set<nat>, received: set<nat>, more: set<nat>)
    requires Stage(s, pending, received) && h in pending && h in {3, 4, 5} && received <= {3, 4, 5}
    requires h == 4 ==> 2 in pending
    requires SyncInv(MixedPlan(), s', multiset{}, h, []) && Fed(MixedPlan(), s, s', Entry(h, Node(1)))
    requires h in s'.reqs ==> s'.reqs[h].data.Some?
    requires more == if h == 5 then {3, 4} else {2}
    ensures Stage(s', pending + more, received + {h})
  {
    hide SyncInv;
    hide MixedPlan;
    hide Fed;
    StageEmpty(s, s', h, pending, received);
    MixedRefs(Entry(h, Node(1)));
    StageGrown(s, s', h, MixedPlan().Refs(Entry(h, Node(1))));
    AnyCur(MixedPlan(), s', h, 5);
    StageAsked(s', h, more);
    hide RefsOf;
    assert s'.reqs.Keys == pending + more;
  }

  lemma StageAsked(s: State<nat>, h: nat, more: set<nat>)
    requires SyncInv(MixedPlan(), s, multiset{}, 5, []) && s.db == map[] && s.batch == map[]
    requires h in s.reqs && h in {3, 4, 5} && s.reqs[h].data.Some? && s.reqs[h].kind == Node(1)
    requires more == if h == 5 then {3, 4} else {2}
    ensures more <= s.reqs.Keys
  {
    hide SyncInv;
    hide MixedPlan;
    MixedRefs(Entry(h, Node(1)));
    forall x | x in more
      ensures x in s.reqs
    {
      var e := Entry(x, if h == 3 then Raw else Node(1));
      assert e in RefsOf(MixedPlan(), s, h);
      NotVoid(e);
      RefPending(MixedPlan(), s, 5, h, e);
    }
  }

  /** One delivery of the run. */
  method DeliverAbove(sync: Sync<nat>, h: nat, ghost cur: nat, ghost pending: set<nat>, ghost received: set<nat>,
                      ghost more: set<nat>)
    requires Running(sync, cur) && sync.p == MixedPlan() && Stage(sync.Now(), pending, received)
    requires h in pending && h !in received && h in {3, 4, 5} && received <= {3, 4, 5} && (h == 4 ==> 2 in pending)
    requires more == if h == 5 then {3, 4} else {2}
    modifies sync
    ensures Running(sync, h) && Stage(sync.Now(), pending + more, received + {h})
  {
    hide SyncInv;
    hide Accounted;
    hide OnTrack;
    hide AllWait;
    hide Fed;
    ghost var s := sync.Now();
    var o, _ := sync.ProcessOne(Item(h, [h % 256]), cur);
    StageNext(s, sync.Now(), h, pending, received, more);
  }

  /** The last delivery: with nothing left to be delivered, nothing is pending. */
  method DeliverRaw(sync: Sync<nat>, ghost cur: nat)
    requires Running(sync, cur) && sync.p == MixedPlan() && Stage(sync.Now(), {2, 3, 4, 5}, {3, 4, 5})
    modifies sync
    ensures Running(sync, 2) && sync.requests == map[] && sync.database == map[] && 1 !in sync.batch
  {
    hide SyncInv;
    hide Accounted;
    hide OnTrack;
    hide AllWait;
    ghost var s := sync.Now();
    var o, _ := sync.ProcessOne(Item(2, [2]), cur);
    AllReceived(s, sync.Now());
    Meaning(sync, 2);
  }

  lemma AllReceived(s: State<nat>, s': State<nat>)
    requires Stage(s, {2, 3, 4, 5}, {3, 4, 5}) && Fed(MixedPlan(), s, s', Entry(2, Raw))
    requires 2 in s'.reqs ==> s'.reqs[2].data.Some?
    ensures forall h :: h in s'.reqs ==> s'.reqs[h].data.Some?
    ensures s'.db == map[] && 1 !in s'.batch
  {
    hide SyncInv;
    MixedRefs(Entry(2, Raw));
    hide MixedPlan;
  }

  /**
   * The children of 5 are delivered, first 3 and then 4, so 2 is first asked for as a raw entry; it
   * is delivered and stored as such. Nothing is pending then, everything is written, and 1, which
   * the root leads to, was never asked for.
   */
  method RawFirst() returns (sync: Sync<nat>, ghost cur: nat)
    ensures fresh(sync) && Running(sync, cur) && sync.p == MixedPlan() && sync.root == Entry(5, Node(1))
    ensures sync.requests == map[] && sync.order == [] && 1 !in sync.database
    ensures Reaches(sync.p, sync.root, Entry(1, Node(1))) && !Complete(sync.p, sync.Now(), sync.root)
  {
    hide SyncInv;
    hide Accounted;
    hide OnTrack;
    hide AllWait;
    hide Reaches;
    hide Stage;
    hide MixedPlan;
    sync := AboveDelivered();
    DeliverRaw(sync, 4);
    cur := 2;
    WrittenBatch(sync, cur);
    var _, _ := sync.Commit(|sync.order|, cur);
    MixedPath();
    NotVoid(Entry(1, Node(1)));
    InBatch(sync.p, sync.Now(), cur);
    assert !Present(sync.p, sync.Now(), Entry(1, Node(1)));
  }

  method AboveDelivered() returns (sync: Sync<nat>)
    ensures fresh(sync) && Running(sync, 4) && sync.p == MixedPlan() && sync.root == Entry(5, Node(1))
    ensures Stage(sync.Now(), {2, 3, 4, 5}, {3, 4, 5})
  {
    hide SyncInv;
    hide Accounted;
    hide OnTrack;
    hide AllWait;
    hide Stage;
    MixedValid();
    sync := new Sync(MixedPlan(), 5, 1, map[], {}, map[]);
    StageStart(sync.Now());
    DeliverAbove(sync, 5, 5, {5}, {}, {3, 4});
    assert {5} + {3, 4} == {3, 4, 5} && {} + {5} == {5};
    DeliverAbove(sync, 3, 5, {3, 4, 5}, {5}, {2});
    assert {3, 4, 5} + {2} == {2, 3, 4, 5} && {5} + {3} == {3, 5};
    DeliverAbove(sync, 4, 3, {2, 3, 4, 5}, {3, 5}, {2});
    assert {2, 3, 4, 5} + {2} == {2, 3, 4, 5} && {3, 5} + {4} == {3, 4, 5};
  }

  lemma StageStart(s: State<nat>)
    requires SyncInv(MixedPlan(), s, multiset{}, 5, []) && s.db == map[] && s.order == []
    requires s.reqs == map[5 := Request(None, Node(1), [], 0)]
    ensures Stage(s, {5}, {})
  {
    InBatch(MixedPlan(), s, 5);
    hide SyncInv;
  }

  lemma WrittenBatch(sync: Sync<nat>, cur: nat)
    requires Running(sync, cur) && 1 !in sync.batch
    ensures 1 !in sync.order
  {
    hide SyncInv;
    InBatch(sync.p, sync.Now(), cur);
  }
}
