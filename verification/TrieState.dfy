/**
 * Committing a state into the write cache (Commit in proton/core/state/statedb.go): code goes in as
 * blobs and storage tries are committed before the account trie, whose leaf callback then links each
 * account's node to its storage root and its code. So the whole state is held by the account root.
 */
module TrieState {
  import opened Bytes
  import opened TrieTree
  import opened TrieNode
  import opened TrieLazy
  import opened TrieHasher
  import opened TrieStore
  import opened TrieCommit
  import TrieRun
  import TrieDatabase
  import Gc = TrieGc
  import Held = TrieHeld

  /** An account to be committed: its new code, if any, and its storage trie. */
  datatype Account = Account(code: Option<seq<byte>>, storage: Node)

  /** What a storage trie's leaves refer to. */
  function NoRefs(v: seq<byte>): (hs: seq<Hash>) {
    []
  }

  /** The links of the trie's entries are what their leaves refer to, and lead down. */
  ghost predicate LinksRight(w: World, u: Universe, refs: seq<byte> -> seq<Hash>, links: Hash -> seq<Hash>, t: Tree) {
    forall x :: EntryOf(w, x, t) ==>
      links(NodeHash(w, x)) == LeafRefs(refs, x)
      && forall c :: c in links(NodeHash(w, x)) ==> c != u.zero && u.rank(c) < u.rank(NodeHash(w, x))
  }

  ghost predicate LinksKnown(w: World, refs: seq<byte> -> seq<Hash>, s: Cache, t: Tree) {
    forall x, c :: EntryOf(w, x, t) && c in LeafRefs(refs, x) ==> c in s.d || c in s.disk
  }

  /** A node that was cached before has been listed after what it wants. */
  lemma FirmBefore(u: Universe, s: Cache, size: TrieDatabase.Sizes, want: Hash -> seq<Hash>, h: Hash, c: Hash)
    requires Gc.Good(u, s, size, [], multiset{}) && h in s.d && h != u.zero && Held.Firm(want, s, h) && c in want(h)
    ensures Before(s, h, c)
  {
    hide Gc.Good;
    hide TrieDatabase.Cnt;
    if c !in s.disk {
      var i := Gc.Listed(u, s, size, [], multiset{}, h);
      Gc.PlacedAt(u, s, size, i);
    }
  }

  /** Where everything is firm, links may be made to whatever is there. */
  lemma TiedFirm(w: World, u: Universe, refs: seq<byte> -> seq<Hash>, links: Hash -> seq<Hash>, s: Cache,
                 size: TrieDatabase.Sizes, t: Tree)
    requires Gc.Good(u, s, size, [], multiset{}) && Held.EveryFirm(Wants(u, links), u.zero, s) && u.zero == ZeroHash()
    requires w.Valid() && Covers(w, t) && Canonical(t) && LinksRight(w, u, refs, links, t) && LinksKnown(w, refs, s, t)
    ensures Tied(w, u, refs, links, s, t, true)
  {
    hide Gc.Good;
    hide Covers;
    hide Canonical;
    hide Held.Firm;
    hide Before;
    hide LeafRefs;
    hide Large;
    forall x | SubOf(x, t) && Inner(x) && (Large(w, x) || x == t)
      ensures TiedNode(w, u, refs, links, s, x)
    {
      assert EntryOf(w, x, t);
      SubCovered(w, x, t);
      TrieRun.NotEmptyRoot(w, x);
      var h := NodeHash(w, x);
      forall c | c in links(h)
        ensures MayRefer(u, s, h, c) && (c in s.d || c in s.disk)
      {
        if h in s.d {
          FirmBefore(u, s, size, Wants(u, links), h, c);
        }
      }
    }
  }

  // ---- the objects ----

  /** Entries were only added, so the view has only grown. */
  lemma OnwardGrown(u: Universe, links: Hash -> seq<Hash>, s: Cache, size: TrieDatabase.Sizes, s': Cache,
                    size': TrieDatabase.Sizes)
    requires Gc.Good(u, s, size, [], multiset{}) && Gc.Good(u, s', size', [], multiset{}) && Onward(u, links, s, s')
    ensures Grown(ViewOf(u, s), ViewOf(u, s'))
  {
    hide Gc.Good;
    hide ViewOf;
    hide Held.FirmStays;
    forall h | h in ViewOf(u, s)
      ensures h in ViewOf(u, s') && ViewOf(u, s')[h] == ViewOf(u, s)[h]
    {
      ViewAt(u, s, h);
      ViewAt(u, s', h);
      ViewBlob(u, s, size, h);
      ViewBlob(u, s', size', h);
    }
  }

  /** Code that may go in as a blob: it is what its hash stands for, and wants nothing. */
  ghost predicate PlainCode(w: World, u: Universe, links: Hash -> seq<Hash>, code: seq<byte>) {
    var h := w.H(code);
    code in w.D && u.blob(h) == code && h != u.zero && Wants(u, links)(h) == []
  }

  ghost predicate Firmly(gc: Gc.Database<Hash>, links: Hash -> seq<Hash>, w: World)
    reads gc
  {
    Ready(gc) && Held.EveryFirm(Wants(gc.u, links), gc.u.zero, gc.Now()) && Sound(w, View(gc))
  }

  method CommitCode(w: World, gc: Gc.Database<Hash>, code: seq<byte>, ghost links: Hash -> seq<Hash>)
    requires Firmly(gc, links, w) && PlainCode(w, gc.u, links, code)
    modifies gc
    ensures Firmly(gc, links, w) && Onward(gc.u, links, old(gc.Now()), gc.Now()) && w.H(code) in gc.dirties
  {
    hide Gc.Good;
    hide Gc.Inserted;
    hide Gc.Wraps;
    hide ViewOf;
    hide Sound;
    hide Wants;
    hide Held.EveryFirm;
    hide Held.FirmStays;
    ghost var s, size, h := gc.Now(), gc.Bytes(), w.H(code);
    ghost var want := Wants(gc.u, links);
    SoundNames(w, gc.u, s, size);
    OnwardSelf(gc.u, links, s, size);
    gc.InsertBlob(w.H(code), code);
    if h !in s.d {
      Gc.InsertedEntry(s.d, gc.dirties, h, code, []);
      CodeFirm(want, gc.u.zero, s, gc.Now(), h, code);
      EntryOnward(gc.u, links, s, size, gc.Now(), gc.Bytes());
      Held.EveryStays(want, gc.u.zero, s, gc.Now());
      SoundNames(w, gc.u, gc.Now(), gc.Bytes());
      hide NamedRight;
      assert NamedRight(w, gc.u, h) by { CodeNamed(w, gc.u, links, code); }
    }
  }

  lemma CodeNamed(w: World, u: Universe, links: Hash -> seq<Hash>, code: seq<byte>)
    requires PlainCode(w, u, links, code)
    ensures NamedRight(w, u, w.H(code))
  {}

  lemma CodeFirm(want: Hash -> seq<Hash>, zero: Hash, s: Cache, s': Cache, h: Hash, code: seq<byte>)
    requires h !in s.d && Gc.Inserted(s.d, s'.d, h, code, []) && s'.disk == s.disk && want(h) == []
    ensures Held.FirmStays(want, zero, s, s')
  {
    hide Gc.Inserted;
    hide Held.Firm;
    Held.FirmInserted(want, zero, s, s', h, code, []);
  }

  /** A storage trie is committed without a callback. */
  method CommitStorage(w: World, gc: Gc.Database<Hash>, n: Node, ghost links: Hash -> seq<Hash>, ghost t: Tree)
    requires Firmly(gc, links, w) && Canonical(t) && Fits(w, gc.u, View(gc), n, t, true)
    requires LinksRight(w, gc.u, NoRefs, links, t)
    modifies gc
    ensures Firmly(gc, links, w) && Onward(gc.u, links, old(gc.Now()), gc.Now())
    ensures Dirty(n) ==> TrieRun.RootHash(w, t) in gc.dirties
  {
    hide Gc.Good;
    hide ViewOf;
    hide Canonical;
    hide Backed;
    hide Describes;
    hide DescribesNode;
    hide Rep;
    hide LinksRight;
    hide Held.EveryFirm;
    hide Tied;
    hide Held.FirmStays;
    hide TrieRun.RootHash;
    hide TrieRun.HashStep;
    hide ReadsRight;
    ghost var s, st := gc.Now(), TrieRun.State(n, View(gc));
    NothingToKnow(w, s, t);
    TiedFirm(w, gc.u, NoRefs, links, s, gc.Bytes(), t);
    Committed(w, st, t);
    var _, _ := CommitInto(w, gc, n, NoRefs, links, t);
    Held.EveryStays(Wants(gc.u, links), gc.u.zero, s, gc.Now());
  }

  predicate Dirty(n: Node) {
    (n.Short? || n.Full?) && n.flag.dirty
  }

  lemma NothingToKnow(w: World, s: Cache, t: Tree)
    ensures LinksKnown(w, NoRefs, s, t)
  {}

  ghost predicate AccountOk(w: World, u: Universe, links: Hash -> seq<Hash>, db: Db, o: Account, t: Tree) {
    && Canonical(t) && Fits(w, u, db, o.storage, t, true) && LinksRight(w, u, NoRefs, links, t)
    && (o.code.Some? ==> PlainCode(w, u, links, o.code.value))
  }

  /** What committing an account puts into the cache. */
  ghost predicate Supplies(w: World, o: Account, t: Tree, c: Hash) {
    (o.code.Some? && c == w.H(o.code.value)) || (Dirty(o.storage) && c == TrieRun.RootHash(w, t))
  }

  method CommitAccount(w: World, gc: Gc.Database<Hash>, o: Account, ghost links: Hash -> seq<Hash>, ghost t: Tree)
    requires Firmly(gc, links, w) && AccountOk(w, gc.u, links, View(gc), o, t)
    modifies gc
    ensures Firmly(gc, links, w) && Onward(gc.u, links, old(gc.Now()), gc.Now())
    ensures forall c :: Supplies(w, o, t, c) ==> c in gc.dirties
  {
    hide Gc.Good;
    hide ViewOf;
    hide Sound;
    hide Canonical;
    hide LinksRight;
    hide PlainCode;
    hide Held.EveryFirm;
    hide Onward;
    hide TrieRun.RootHash;
    hide Grown;
    ghost var s, size := gc.Now(), gc.Bytes();
    OnwardSelf(gc.u, links, s, size);
    if o.code.Some? {
      CommitCode(w, gc, o.code.value, links);
      OnwardGrown(gc.u, links, s, size, gc.Now(), gc.Bytes());
      FitsGrown(w, gc.u, ViewOf(gc.u, s), View(gc), o.storage, t, true);
    }
    hide Fits;
    ghost var s1 := gc.Now();
    CommitStorage(w, gc, o.storage, links, t);
    OnwardKeys(gc.u, links, s1, gc.Now());
    OnwardTrans(gc.u, links, s, s1, gc.Now());
  }

  lemma OnwardKeys(u: Universe, links: Hash -> seq<Hash>, s: Cache, s': Cache)
    requires Onward(u, links, s, s')
    ensures forall h :: h in s.d ==> h in s'.d
    ensures s'.disk == s.disk
  {
    hide Held.FirmStays;
  }

  method CommitAccounts(w: World, gc: Gc.Database<Hash>, os: seq<Account>, ghost links: Hash -> seq<Hash>,
                        ghost ts: seq<Tree>)
    requires Firmly(gc, links, w) && |os| == |ts|
    requires forall i :: 0 <= i < |os| ==> AccountOk(w, gc.u, links, View(gc), os[i], ts[i])
    modifies gc
    ensures Firmly(gc, links, w) && Onward(gc.u, links, old(gc.Now()), gc.Now())
    ensures forall i, c :: 0 <= i < |os| && Supplies(w, os[i], ts[i], c) ==> c in gc.dirties
  {
    hide Gc.Good;
    hide ViewOf;
    hide Sound;
    hide Canonical;
    hide LinksRight;
    hide PlainCode;
    hide Held.EveryFirm;
    hide Onward;
    hide Supplies;
    hide Fits;
    hide Grown;
    ghost var s, size := gc.Now(), gc.Bytes();
    OnwardSelf(gc.u, links, s, size);
    for k := 0 to |os|
      invariant Firmly(gc, links, w) && Onward(gc.u, links, s, gc.Now())
      invariant forall i, c :: 0 <= i < k && Supplies(w, os[i], ts[i], c) ==> c in gc.dirties
    {
      ghost var s1 := gc.Now();
      OnwardGrown(gc.u, links, s, size, s1, gc.Bytes());
      FitsGrown(w, gc.u, ViewOf(gc.u, s), View(gc), os[k].storage, ts[k], true);
      CommitAccount(w, gc, os[k], links, ts[k]);
      OnwardKeys(gc.u, links, s1, gc.Now());
      OnwardTrans(gc.u, links, s, s1, gc.Now());
    }
  }

  /** The leaves of the account trie refer to what is there already or is committed with the accounts. */
  ghost predicate Supplied(w: World, refs: seq<byte> -> seq<Hash>, s: Cache, os: seq<Account>, ts: seq<Tree>, t: Tree)
    requires |os| == |ts|
  {
    forall x, c :: EntryOf(w, x, t) && c in LeafRefs(refs, x) ==>
      c in s.d || c in s.disk || exists i :: 0 <= i < |os| && Supplies(w, os[i], ts[i], c)
  }

  /** Links lead to nothing but entries. */
  ghost predicate LinksOff(u: Universe, links: Hash -> seq<Hash>) {
    forall h, c :: c in links(h) ==> Held.NotMeta(u.zero, c)
  }

  /** Commit, and the reference from outside: from now on the account root holds the whole state. */
  method CommitState(w: World, gc: Gc.Database<Hash>, os: seq<Account>, accounts: Node, refs: seq<byte> -> seq<Hash>,
                     ghost links: Hash -> seq<Hash>, ghost ts: seq<Tree>, ghost t: Tree)
    returns (hash: Hash)
    requires Firmly(gc, links, w) && LinksOff(gc.u, links) && |os| == |ts|
    requires forall i :: 0 <= i < |os| ==> AccountOk(w, gc.u, links, View(gc), os[i], ts[i])
    requires Canonical(t) && Fits(w, gc.u, View(gc), accounts, t, true) && Dirty(accounts)
    requires LinksRight(w, gc.u, refs, links, t) && Supplied(w, refs, gc.Now(), os, ts, t)
    modifies gc
    ensures Firmly(gc, links, w) && Inner(t) && hash == NodeHash(w, t)
    ensures Held.Stands(Wants(gc.u, links), gc.zero, gc.Now(), hash)
  {
    hide Gc.Good;
    hide ViewOf;
    hide Sound;
    hide Canonical;
    hide LinksRight;
    hide Held.EveryFirm;
    hide Onward;
    hide Supplies;
    hide Backed;
    hide Rep;
    hide Describes;
    hide DescribesNode;
    hide Grown;
    hide Tied;
    hide TrieRun.HashStep;
    hide ReadsRight;
    hide AccountOk;
    hide TrieDatabase.Cnt;
    hide LinksOff;
    ghost var s, size := gc.Now(), gc.Bytes();
    CommitAccounts(w, gc, os, links, ts);
    ghost var s1 := gc.Now();
    OnwardGrown(gc.u, links, s, size, s1, gc.Bytes());
    FitsGrown(w, gc.u, ViewOf(gc.u, s), View(gc), accounts, t, true);
    OnwardKeys(gc.u, links, s, s1);
    assert LinksKnown(w, refs, s1, t);
    TiedFirm(w, gc.u, refs, links, s1, gc.Bytes(), t);
    RootInner(w, TrieRun.State(accounts, View(gc)), t);
    var cached;
    hash, cached := CommitAndReference(w, gc, accounts, refs, links, t);
    StateStands(gc.u, links, s1, gc.Now(), gc.Bytes(), hash);
  }

  lemma StateStands(u: Universe, links: Hash -> seq<Hash>, s: Cache, s': Cache, size': TrieDatabase.Sizes, h: Hash)
    requires Gc.Good(u, s', size', [], multiset{}) && Onward(u, links, s, s') && LinksOff(u, links)
    requires Held.EveryFirm(Wants(u, links), u.zero, s) && u.zero in s'.d && TrieDatabase.Cnt(s'.d[u.zero], h) > 0
    ensures Held.EveryFirm(Wants(u, links), u.zero, s') && Held.Stands(Wants(u, links), u.zero, s', h)
  {
    hide Gc.Good;
    hide Held.EveryFirm;
    hide Held.FirmStays;
    hide Held.Stands;
    hide TrieDatabase.Cnt;
    var want := Wants(u, links);
    Held.EveryStays(want, u.zero, s, s');
    Gc.Members(u, s', size', [], multiset{});
    forall k, c | c in want(k)
      ensures Held.NotMeta(u.zero, c)
    {
      if c in u.kids(k) {
        TrieDatabase.KidLies(u, k, c);
      }
    }
    Held.EveryStands(want, u, s', size', h);
  }

  /**
   * Whatever is then done with the cache, as long as the root is not given up, and whichever disk
   * writes fail, the account root goes on holding the whole state.
   */
  method CommitStateAndRun(w: World, gc: Gc.Database<Hash>, os: seq<Account>, accounts: Node,
                           refs: seq<byte> -> seq<Hash>, ops: seq<Held.Op<Hash>>, ghost links: Hash -> seq<Hash>,
                           ghost ts: seq<Tree>, ghost t: Tree)
    returns (hash: Hash)
    requires Firmly(gc, links, w) && LinksOff(gc.u, links) && |os| == |ts|
    requires forall i :: 0 <= i < |os| ==> AccountOk(w, gc.u, links, View(gc), os[i], ts[i])
    requires Canonical(t) && Fits(w, gc.u, View(gc), accounts, t, true) && Dirty(accounts)
    requires LinksRight(w, gc.u, refs, links, t) && Supplied(w, refs, gc.Now(), os, ts, t) && HonestOps(w, gc.u, ops)
    modifies gc
    ensures Ready(gc) && Sound(w, View(gc)) && Inner(t) && hash == NodeHash(w, t)
    ensures Held.Stands(Wants(gc.u, links), gc.zero, gc.Now(), hash)
    ensures Held.AllHeld(Wants(gc.u, links), gc.zero, gc.Now(), hash)
  {
    hide Gc.Good;
    hide ViewOf;
    hide Sound;
    hide Canonical;
    hide LinksRight;
    hide Held.EveryFirm;
    hide Held.Stands;
    hide Held.AllHeld;
    hide Fits;
    hide Supplied;
    hide AccountOk;
    hide LinksOff;
    hide HonestOps;
    hide Wants;
    hash := CommitState(w, gc, os, accounts, refs, links, ts, t);
    ghost var s, size := gc.Now(), gc.Bytes();
    OpsHonest(w, gc.u, ops);
    Held.Run(gc, ops, hash, Wants(gc.u, links));
    OpsSound(w, gc.u, s, size, gc.Now(), gc.Bytes(), ops);
  }

  // ---- reading the state ----

  lemma LeafLeads(w: World, u: Universe, refs: seq<byte> -> seq<Hash>, links: Hash -> seq<Hash>, t: Tree, x: Tree,
                  c: Hash)
    requires Inner(t) && Canonical(t) && DescribesNode(w, u, t) && Describes(w, u, t)
    requires EntryOf(w, x, t) && LinksRight(w, u, refs, links, t) && c in LeafRefs(refs, x)
    ensures Held.Leads(Wants(u, links), NodeHash(w, t), c)
  {
    hide Held.Leads;
    hide Describes;
    hide DescribesNode;
    hide Canonical;
    hide EntryOf;
    hide LeafRefs;
    var (a, h) := (NodeHash(w, t), NodeHash(w, x));
    LeadsEntries(w, u, t, h);
    Held.LeadsSelf(Wants(u, links), a);
    LeadsOn(u, links, a, a, h);
    Held.LeadsStep(Wants(u, links), a, h, c);
  }

  /**
   * As long as the account root stands, every storage trie that an account's leaf refers to reads every
   * key right, and everything else it refers to, such as code, can be read.
   */
  lemma StateReads(w: World, u: Universe, s: Cache, size: TrieDatabase.Sizes, refs: seq<byte> -> seq<Hash>,
                   links: Hash -> seq<Hash>, t: Tree, x: Tree, c: Hash, storage: Tree, key: TrieRun.Key)
    requires Gc.Good(u, s, size, [], multiset{}) && Held.Stands(Wants(u, links), u.zero, s, NodeHash(w, t))
    requires Inner(t) && Canonical(t) && DescribesNode(w, u, t) && Describes(w, u, t)
    requires EntryOf(w, x, t) && LinksRight(w, u, refs, links, t) && c in LeafRefs(refs, x)
    requires w.Valid() && Sound(w, ViewOf(u, s))
    requires c == NodeHash(w, storage) ==>
      && Inner(storage) && Canonical(storage) && Covers(w, storage)
      && DescribesNode(w, u, storage) && Describes(w, u, storage)
    ensures Gc.Readable(u.zero, s, c)
    ensures c == NodeHash(w, storage) ==> ReadsRight(w, ViewOf(u, s), storage, key)
  {
    hide Gc.Good;
    hide Held.Leads;
    hide Describes;
    hide DescribesNode;
    hide Canonical;
    hide EntryOf;
    hide LeafRefs;
    hide ReadsRight;
    hide Held.Stands;
    hide LinksRight;
    hide Wants;
    hide Covers;
    hide Sound;
    hide ViewOf;
    LeafLeads(w, u, refs, links, t, x, c);
    Held.StandsHeld(Wants(u, links), u, s, size, NodeHash(w, t));
    if c == NodeHash(w, storage) {
      LinkedReads(w, u, s, size, links, NodeHash(w, t), storage, key);
    }
  }
}
