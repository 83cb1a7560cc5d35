/**
 * What the sync scheduler fetches is a trie: the direct hash children of a decoded node
 * (children in proton/trie/sync.go) are all there is below it, because a node small enough to be
 * embedded has no room for a hash. Once nothing is pending, the trie can be read completely.
 */
module TrieSynced {
  import opened Bytes
  import opened Rlp
  import opened TrieEncoding
  import opened TrieTree
  import opened TrieNode
  import opened TrieLazy
  import opened TrieHasher
  import opened TrieBacked
  import opened TrieStore
  import TrieRun
  import Sync = TrieSync
  import Runs = TrieSyncRun

  // ---- embedded nodes have no hashes ----

  lemma {:induction false} ElementLength(items: seq<Item>, i: nat)
    requires i < |items|
    ensures |EncodeAll(items)| >= |Encode(items[i])|
  {
    if i > 0 {
      ElementLength(items[1..], i - 1);
    }
  }

  lemma ListLength(items: seq<Item>, i: nat)
    requires i < |items|
    ensures |Encode(Item.List(items))| >= |Encode(items[i])|
  {
    ElementLength(items, i);
  }

  /** A collapsed node with a hash anywhere in it takes more than 32 bytes. */
  lemma {:induction false} GatherLong(r: Raw)
    requires Gather(r) != []
    ensures |Encode(RawItem(r))| > 32
    decreases r
  {
    match r
    case RHash(h) =>
    case RShort(k, val) =>
      GatherLong(val);
      ListLength(RawItem(r).items, 1);
    case RFull(cs) =>
      var i := GatherFrom(cs, 0);
      GatherLong(cs[i]);
      ListLength(RawItem(r).items, i);
    case _ =>
  }

  lemma {:induction false} GatherFrom(cs: seq<Raw>, i: nat) returns (j: nat)
    requires GatherAll(cs, i) != []
    ensures i <= j < 16 && j < |cs| && Gather(cs[j]) != []
    decreases 16 - i
  {
    j := i;
    if Gather(cs[i]) == [] {
      j := GatherFrom(cs, i + 1);
    }
  }

  /** What is embedded in its parent refers to nothing. */
  lemma EmbeddedGather(w: World, c: Tree)
    requires Inner(c) && !Large(w, c)
    ensures Gather(RefRaw(w, c)) == []
  {
    if Gather(RefRaw(w, c)) != [] {
      GatherLong(RefRaw(w, c));
      RefRawItem(w, c);
    }
  }

  // ---- the direct hash children ----

  function OwnHash(n: Node): (hs: seq<Hash>) {
    if n.HashN? then [n.h] else []
  }

  function DirectFrom(cs: seq<Node>, i: nat): (hs: seq<Hash>)
    decreases |cs| - i
  {
    if i >= |cs| then [] else OwnHash(cs[i]) + DirectFrom(cs, i + 1)
  }

  /** The hashes among the children of a loaded node. */
  function Direct(n: Node): (hs: seq<Hash>) {
    match n
    case Short(_, val, _) => OwnHash(val)
    case Full(cs, _) => DirectFrom(cs, 0)
    case _ => []
  }

  lemma {:induction false} DirectSnoc(cs: seq<Node>, i: nat, j: nat)
    requires i <= j < |cs|
    ensures DirectFrom(cs[..j + 1], i) == DirectFrom(cs[..j], i) + OwnHash(cs[j])
    decreases j - i
  {
    if i < j {
      DirectSnoc(cs, i + 1, j);
    } else {
      assert DirectFrom(cs[..j + 1], j + 1) == [];
    }
  }

  /** The children of a full node that are there. */
  method SomeChildren(all: seq<Node>) returns (children: seq<Node>)
    ensures DirectFrom(children, 0) == DirectFrom(all, 0)
  {
    hide DirectFrom;
    children := [];
    assert all[..0] == [];
    for i := 0 to |all|
      invariant DirectFrom(children, 0) == DirectFrom(all[..i], 0)
    {
      DirectSnoc(all, 0, i);
      if all[i] != Nil {
        var more := children + [all[i]];
        DirectSnoc(more, 0, |children|);
        assert more[..|children|] == children && more[..|more|] == more;
        children := more;
      }
    }
    assert all[..|all|] == all;
  }

  /** The gathering part of children: the loop over the children of a full node, and the hashes among them. */
  method ChildHashes(n: Node) returns (hs: seq<Hash>)
    requires n.Short? || (n.Full? && |n.children| == 17)
    ensures hs == Direct(n)
  {
    var children: seq<Node>;
    if n.Short? {
      children := [n.val];
    } else {
      children := SomeChildren(n.children);
    }
    hs := [];
    for i := 0 to |children|
      invariant hs == DirectFrom(children[..i], 0)
    {
      DirectSnoc(children, 0, i);
      if children[i].HashN? {
        hs := hs + [children[i].h];
      }
    }
    assert children[..|children|] == children;
    if n.Short? {
      assert DirectFrom(children, 1) == [];
    }
  }

  lemma DirectRef(w: World, c: Tree)
    ensures OwnHash(RefNode(w, c)) == Gather(RefRaw(w, c))
  {
    if Inner(c) && !Large(w, c) {
      EmbeddedGather(w, c);
    }
  }

  lemma {:induction false} DirectRefs(w: World, subs: seq<Tree>, i: nat)
    requires |subs| == 17 && !Inner(subs[16]) && i <= 17
    ensures DirectFrom(RefNodes(w, subs), i) == GatherAll(RefRaws(w, subs), i)
    decreases 17 - i
  {
    if i < 16 {
      DirectRef(w, subs[i]);
      DirectRefs(w, subs, i + 1);
    } else if i == 16 {
      assert DirectFrom(RefNodes(w, subs), 17) == [];
    }
  }

  /** Looking at direct children only, the scheduler sees every hash inside a stored node. */
  lemma DirectIsGather(w: World, t: Tree, hash: Option<Hash>)
    requires Canonical(t) && Inner(t)
    ensures Direct(Shallow(w, t, hash)) == Gather(Collapse(w, t))
  {
    match t
    case Ext(k, c) => DirectRef(w, c);
    case Branch(subs) => DirectRefs(w, subs, 0);
  }

  // ---- a synced trie ----

  type Plan = Sync.Plan<Hash>
  type State = Sync.State<Hash>

  /** The hash of the node stands for its encoding, and its children are those of the decoded node. */
  ghost predicate PlansNode(w: World, p: Plan, t: Tree)
    requires Inner(t)
  {
    p.blob(NodeHash(w, t)) == Enc(w, t) && p.kids(NodeHash(w, t)) == Direct(Shallow(w, t, Some(NodeHash(w, t))))
  }

  ghost predicate PlansKid(w: World, p: Plan, t: Tree) {
    Large(w, t) ==> Inner(t) && PlansNode(w, p, t)
  }

  ghost predicate Plans(w: World, p: Plan, t: Tree) {
    match t
    case Ext(_, c) => PlansKid(w, p, c) && Plans(w, p, c)
    case Branch(subs) => forall i :: 0 <= i < |subs| ==> PlansKid(w, p, subs[i]) && Plans(w, p, subs[i])
    case _ => true
  }

  /** The trie's node and all it leads to, under the callback, are in the database. */
  ghost predicate Fetched(p: Plan, callback: nat, s: State, h: Hash) {
    h in s.db && Sync.Complete(p, s, Sync.Entry(h, Sync.Node(callback)))
  }

  ghost predicate AllFetched(p: Plan, callback: nat, s: State, hs: seq<Hash>) {
    forall h :: h in hs ==> Fetched(p, callback, s, h)
  }

  /** What a fetched node refers to is fetched: none of it is the empty trie, which is never asked for. */
  lemma KidsStored(w: World, p: Plan, callback: nat, s: State, t: Tree)
    requires w.Valid() && p.emptyRoot == TrieRun.EmptyRoot(w) && s.batch == map[]
    requires Inner(t) && Canonical(t) && Covers(w, t) && PlansNode(w, p, t) && Fetched(p, callback, s, NodeHash(w, t))
    ensures AllFetched(p, callback, s, Gather(Collapse(w, t)))
  {
    hide Canonical;
    hide Covers;
    hide Sync.Complete;
    var (e, hs) := (Sync.Entry(NodeHash(w, t), Sync.Node(callback)), Gather(Collapse(w, t)));
    DirectIsGather(w, t, Some(NodeHash(w, t)));
    TrieRun.NotEmptyRoot(w, t);
    forall h | h in hs
      ensures Fetched(p, callback, s, h)
    {
      var x := Sync.Entry(h, Sync.Node(callback));
      GatheredHash(w, t, h);
      Sync.NodesMember(p.kids(e.hash), callback, x);
      CompleteKid(p, s, e, x);
    }
  }

  lemma CompleteKid(p: Plan, s: State, e: Sync.Entry<Hash>, x: Sync.Entry<Hash>)
    requires Sync.Complete(p, s, e) && !p.Void(e) && x in p.Refs(e)
    ensures Sync.Present(p, s, x) && Sync.Complete(p, s, x)
  {
    Sync.ReachSelf(p, e);
    Sync.ReachStep(p, e, e, x);
    hide Sync.Reaches;
    forall y | Sync.Reaches(p, x, y)
      ensures Sync.Present(p, s, y)
    {
      Sync.ReachTrans(p, e, x, y);
    }
  }

  /** A gathered hash belongs to a node of the trie, so it is not that of the empty trie. */
  lemma GatheredHash(w: World, t: Tree, h: Hash)
    requires w.Valid() && Canonical(t) && Inner(t) && Covers(w, t) && h in Gather(Collapse(w, t))
    ensures h != TrieRun.EmptyRoot(w)
  {
    match t
    case Ext(k, c) => GatheredRef(w, c, h);
    case Branch(subs) =>
      var i := GatheredFrom(RefRaws(w, subs), 0, h);
      GatheredRef(w, subs[i], h);
  }

  lemma GatheredRef(w: World, c: Tree, h: Hash)
    requires w.Valid() && Covers(w, c) && h in Gather(RefRaw(w, c))
    ensures h != TrieRun.EmptyRoot(w)
  {
    if Inner(c) {
      if !Large(w, c) {
        EmbeddedGather(w, c);
      } else {
        TrieRun.NotEmptyRoot(w, c);
      }
    }
  }

  /** If the gathered children are fetched, everything below the node is stored. */
  lemma {:induction false} SyncedBelow(w: World, p: Plan, callback: nat, s: State, t: Tree)
    requires w.Valid() && p.emptyRoot == TrieRun.EmptyRoot(w) && s.batch == map[]
    requires Canonical(t) && Covers(w, t) && Plans(w, p, t) && AllFetched(p, callback, s, Gather(Collapse(w, t)))
    ensures Below(w, s.db, t)
    decreases t, 0
  {
    hide Enc;
    hide Fetched;
    match t
    case Ext(_, c) =>
      if c.Leaf? {
        LeafKid(w, s.db, c);
      } else {
        SyncedKid(w, p, callback, s, c);
      }
    case Branch(subs) =>
      forall i | 0 <= i < |subs|
        ensures Kid(w, s.db, subs[i])
      {
        if i < 16 {
          GatherChild(RefRaws(w, subs), 0, i);
          SyncedKid(w, p, callback, s, subs[i]);
        } else {
          LeafKid(w, s.db, subs[i]);
        }
      }
    case _ =>
  }

  lemma {:induction false} SyncedKid(w: World, p: Plan, callback: nat, s: State, c: Tree)
    requires w.Valid() && p.emptyRoot == TrieRun.EmptyRoot(w) && s.batch == map[]
    requires Canonical(c) && Covers(w, c) && Plans(w, p, c) && PlansKid(w, p, c)
    requires AllFetched(p, callback, s, Gather(RefRaw(w, c)))
    ensures Kid(w, s.db, c)
    decreases c, 1
  {
    hide Enc;
    hide Sync.Complete;
    if Inner(c) {
      if Large(w, c) {
        assert NodeHash(w, c) in Gather(RefRaw(w, c));
        KidsStored(w, p, callback, s, c);
      }
      SyncedBelow(w, p, callback, s, c);
    } else {
      LeafKid(w, s.db, c);
    }
  }

  /** A trie that is fetched completely opens, and every key reads as in the trie that was asked for. */
  lemma SyncedReads(w: World, p: Plan, callback: nat, s: State, t: Tree, key: TrieRun.Key)
    requires w.Valid() && p.emptyRoot == TrieRun.EmptyRoot(w) && s.batch == map[] && Sound(w, s.db)
    requires Inner(t) && Canonical(t) && Covers(w, t) && PlansNode(w, p, t) && Plans(w, p, t)
    requires Sync.Complete(p, s, Sync.Entry(NodeHash(w, t), Sync.Node(callback)))
    ensures Stored(w, s.db, t) && ReadsRight(w, s.db, t, key)
  {
    hide Sync.Complete;
    hide Covers;
    RootFetched(w, p, callback, s, t);
    KidsStored(w, p, callback, s, t);
    SyncedBelow(w, p, callback, s, t);
    hide PlansNode;
    hide Plans;
    TrieRun.OpenGood(w, s.db, t);
    var st := TrieRun.Open(w, TrieRun.RootHash(w, t), s.db).value;
    TryGetBacked(s.db, st.root, KeybytesToHex(key), w, t, true);
    TryGetCorrect(s.db, st.root, KeybytesToHex(key), w, t, true);
  }

  lemma RootFetched(w: World, p: Plan, callback: nat, s: State, t: Tree)
    requires w.Valid() && p.emptyRoot == TrieRun.EmptyRoot(w) && s.batch == map[] && Inner(t) && Covers(w, t)
    requires Sync.Complete(p, s, Sync.Entry(NodeHash(w, t), Sync.Node(callback)))
    ensures Fetched(p, callback, s, NodeHash(w, t))
  {
    TrieRun.NotEmptyRoot(w, t);
    Sync.ReachSelf(p, Sync.Entry(NodeHash(w, t), Sync.Node(callback)));
    hide Sync.Reaches;
  }

  /** Whatever counts as genuine hashes to its name. */
  ghost predicate HonestPlan(w: World, p: Plan) {
    forall h :: p.genuine(h) ==> p.blob(h) in w.D && w.H(p.blob(h)) == h
  }

  /**
   * Any run of the scheduler for a trie: once nothing is pending and the buffer is written, and if
   * everything is fetched below the entries whose hash was first asked for as something less, the
   * trie under the root opens, and every key reads as in the trie that was asked for. That is so if no
   * hash is wanted as two kinds that refer to different entries, for then there are no entries of that
   * sort, or as two that lead to different hashes.
   */
  method SyncTrie(w: World, p: Plan, callback: nat, database: Db, bloom: set<Hash>, ghost start: map<Hash, Sync.Kind>,
                  calls: seq<Runs.Call<Hash>>, root: Hash, ghost t: Tree)
    returns (sync: Sync.Sync<Hash>, ghost cur: Hash)
    requires p.Valid() && Sync.ClosedDb(p, start, database) && Sync.AllMet(p, start) && start.Keys == database.Keys
    requires forall h :: h in database ==> h in bloom && database[h] == p.blob(h) && p.genuine(h)
    requires forall c :: c in calls && c.Deliver? ==> Runs.Honest(p, c.results)
    requires w.Valid() && HonestPlan(w, p) && p.emptyRoot == TrieRun.EmptyRoot(w)
    requires Inner(t) && Canonical(t) && Covers(w, t) && PlansNode(w, p, t) && Plans(w, p, t) && root == NodeHash(w, t)
    ensures fresh(sync) && Runs.Running(sync, cur) && sync.p == p && sync.start == start
    ensures sync.root == Sync.Entry(root, Sync.Node(callback)) && Sound(w, sync.database)
    ensures (sync.requests == map[] && sync.order == [] &&
             forall m :: m in sync.merged ==> Sync.Complete(p, sync.Now(), m)) ==>
      Stored(w, sync.database, t) && forall key :: ReadsRight(w, sync.database, t, key)
    ensures Sync.Unmixed(p, sync.root, start) ==> sync.merged == {}
    ensures sync.requests == map[] && sync.order == [] && Runs.Agreeing(p, sync.root, start) ==>
      Stored(w, sync.database, t) && forall key :: ReadsRight(w, sync.database, t, key)
  {
    hide Sync.ClosedDb;
    hide Sync.AllMet;
    hide Sync.Complete;
    hide Runs.Running;
    hide Sync.Unmixed;
    hide Runs.Agreeing;
    hide PlansNode;
    hide Plans;
    hide ReadsRight;
    hide p.Valid;
    sync, cur := Runs.Run(p, root, callback, database, bloom, start, calls);
    RunSound(w, sync, cur);
    Runs.NoneMerged(sync, cur);
    if sync.requests == map[] && sync.order == [] && Sync.Complete(p, sync.Now(), sync.root) {
      forall key: TrieRun.Key
        ensures Stored(w, sync.database, t) && ReadsRight(w, sync.database, t, key)
      {
        SyncedReads(w, p, callback, sync.Now(), t, key);
      }
      assert Stored(w, sync.database, t) by {
        SyncedReads(w, p, callback, sync.Now(), t, []);
      }
    }
  }

  lemma RunSound(w: World, sync: Sync.Sync<Hash>, cur: Hash)
    requires Runs.Running(sync, cur) && HonestPlan(w, sync.p)
    ensures Sound(w, sync.database) && (sync.order == [] ==> sync.batch == map[])
  {
    Sync.InBatch(sync.p, sync.Now(), cur);
    Sync.StoredGenuine(sync.p, sync.Now(), cur);
    hide Sync.SyncInv;
  }
}
