/**
 * Reading every key needs every node: a trie reads right at all its keys exactly if it is there
 * completely. So what the cache and the disk hold of a trie is exactly what readers can tell.
 */
module TrieReads {
  import opened Bytes
  import opened TrieEncoding
  import opened TrieTree
  import opened TrieNode
  import opened TrieLazy
  import opened TrieHasher
  import opened TrieStore
  import opened TrieIterator
  import TrieRun
  import TrieDatabase
  import Gc = TrieGc
  import Held = TrieHeld

  // ---- every node lies on the way to a stored value ----

  /** The node is met when the key is looked up. */
  ghost predicate OnWay(x: Tree, t: Tree, key: Hex)
    decreases t
  {
    || x == t
    || match t
       case Ext(k, c) => k <= key && OnWay(x, c, key[|k|..])
       case Branch(subs) => key != [] && key[0] < |subs| && OnWay(x, subs[key[0]], key[1..])
       case _ => false
  }

  /** A tree in its place that is not empty holds a value. */
  lemma {:induction false} SomeKey(t: Tree) returns (key: Hex)
    requires Inner(t) && Canonical(t)
    ensures TermKey(key) && Lookup(t, key).Some?
    decreases t
  {
    match t
    case Ext(k, c) =>
      if c.Leaf? {
        key := k;
        assert key[|k|..] == [];
      } else {
        var rest := SomeKey(c);
        key := k + rest;
        assert key[|k|..] == rest && k <= key;
        TermJoin(k, rest);
      }
    case Branch(subs) =>
      var i, j :| 0 <= i < j < |subs| && subs[i] != Empty && subs[j] != Empty;
      var rest := SomeKey(subs[i]);
      key := [i] + rest;
      assert key[1..] == rest;
      TermJoin([i], rest);
  }

  lemma TermJoin(k: Hex, rest: Hex)
    requires Plain(k) && TermKey(rest)
    ensures TermKey(k + rest)
  {
    assert (k + rest)[..|k + rest| - 1] == k + rest[..|rest| - 1];
  }

  lemma {:induction false} KeyThrough(x: Tree, t: Tree) returns (key: Hex)
    requires SubOf(x, t) && Inner(x) && Canonical(t)
    ensures TermKey(key) && Lookup(t, key).Some? && OnWay(x, t, key)
    decreases t
  {
    if x == t {
      key := SomeKey(t);
    } else {
      match t
      case Ext(k, c) =>
        InnerAbove(x, c);
        var rest := KeyThrough(x, c);
        key := k + rest;
        assert key[|k|..] == rest && k <= key;
        TermJoin(k, rest);
      case Branch(subs) =>
        var i :| 0 <= i < |subs| && SubOf(x, subs[i]);
        InnerAbove(x, subs[i]);
        assert i < 16;
        var rest := KeyThrough(x, subs[i]);
        key := [i] + rest;
        assert key[1..] == rest;
        TermJoin([i], rest);
    }
  }

  // ---- a value that was found was found by loading the nodes on the way ----

  /** Nothing below the node is loaded. */
  ghost predicate Unloaded(w: World, n: Node, t: Tree) {
    match n
    case Short(k, val, _) => t.Ext? && k == t.key && val == RefNode(w, t.sub)
    case Full(children, _) => t.Branch? && children == RefNodes(w, t.subs)
    case _ => true
  }

  lemma RefUnloaded(w: World, t: Tree)
    ensures Unloaded(w, RefNode(w, t), t) && (Large(w, t) ==> RefNode(w, t).HashN?)
  {
    hide Enc;
    if Inner(t) && !Large(w, t) {
      ShallowUnloaded(w, t, None);
      assert RefNode(w, t) == Shallow(w, t, None);
    }
  }

  lemma ShallowUnloaded(w: World, t: Tree, hash: Option<Hash>)
    requires Inner(t)
    ensures Unloaded(w, Shallow(w, t, hash), t)
  {}

  lemma PlainNode(w: World, db: Db, n: Node, t: Tree, root: bool)
    requires Stands(w, db, n, t, root) && (n.Nil? || n.Val?)
    ensures !Inner(t)
  {}

  /** What was found below a node was found in the part the key leads to. */
  lemma GotShort(w: World, db: Db, n: Node, key: Hex, t: Tree, root: bool)
    requires Stands(w, db, n, t, root) && n.Short? && n.key <= key
    requires TryGet(db, n, key, w, t, root).Got?
    ensures t.Ext? && t.key == n.key && Stands(w, db, n.val, t.sub, false)
    ensures TryGet(db, n.val, key[|n.key|..], w, t.sub, false).Got?
  {
    hide Enc;
    hide Rep;
    StandsShort(w, db, n, t, root);
  }

  lemma GotFull(w: World, db: Db, n: Node, key: Hex, t: Tree, root: bool)
    requires Stands(w, db, n, t, root) && n.Full? && t.Branch? && key != [] && key[0] < |t.subs|
    requires TryGet(db, n, key, w, t, root).Got?
    ensures |t.subs| == |n.children| == 17 && Stands(w, db, n.children[key[0]], t.subs[key[0]], false)
    ensures TryGet(db, n.children[key[0]], key[1..], w, t.subs[key[0]], false).Got?
  {
    hide Enc;
    hide Rep;
    StandsFull(w, db, n, t, root, 0);
    StandsFull(w, db, n, t, root, key[0]);
  }

  lemma GotHash(w: World, db: Db, h: Hash, key: Hex, t: Tree, root: bool)
    requires Stands(w, db, HashN(h), t, root) && TryGet(db, HashN(h), key, w, t, root).Got?
    ensures Inner(t) && h == NodeHash(w, t) && h in db && Stands(w, db, Shallow(w, t, Some(h)), t, root)
    ensures TryGet(db, Shallow(w, t, Some(h)), key, w, t, root).Got?
    ensures !Shallow(w, t, Some(h)).HashN?
  {
    hide Enc;
    ResolveStands(w, db, h, t, root);
  }

  /** A node stored on its own that a successful read passes is in the database. */
  lemma {:induction false} GotLoaded(w: World, db: Db, n: Node, key: Hex, t: Tree, root: bool, x: Tree)
    requires Stands(w, db, n, t, root) && Unloaded(w, n, t) && (x == t ==> n.HashN?)
    requires TryGet(db, n, key, w, t, root).Got? && OnWay(x, t, key) && Large(w, x)
    ensures NodeHash(w, x) in db
    decreases t, if n.HashN? then 1 else 0
  {
    hide Enc, Rep, Stands, TryGet, RefNode, Shallow;
    match n
    case HashN(h) =>
      GotHash(w, db, h, key, t, root);
      if x != t {
        ShallowUnloaded(w, t, Some(h));
        GotLoaded(w, db, Shallow(w, t, Some(h)), key, t, root, x);
      }
    case Short(k, val, flag) =>
      GotShort(w, db, n, key, t, root);
      RefUnloaded(w, t.sub);
      GotLoaded(w, db, val, key[|k|..], t.sub, false, x);
    case Full(children, flag) =>
      GotFull(w, db, n, key, t, root);
      RefUnloaded(w, t.subs[key[0]]);
      GotLoaded(w, db, children[key[0]], key[1..], t.subs[key[0]], false, x);
    case _ => PlainNode(w, db, n, t, root);
  }

  // ---- reading everything and holding everything are the same ----

  /** The trie opens at the tree's root hash and finds the tree's value of the key. */
  ghost predicate Reads(w: World, db: Db, t: Tree, key: TrieRun.Key) {
    var st := TrieRun.Open(w, TrieRun.RootHash(w, t), db);
    && st.Some? && Stands(w, db, st.value.root, t, true)
    && var r := TryGet(db, st.value.root, KeybytesToHex(key), w, t, true);
       r.Got? && r.value == Lookup(t, KeybytesToHex(key))
  }

  ghost predicate ReadsAll(w: World, db: Db, t: Tree) {
    forall key :: Lookup(t, KeybytesToHex(key)).Some? ==> Reads(w, db, t, key)
  }

  /** A key of the tree whose reading passes the node. */
  lemma ByteKeyThrough(x: Tree, t: Tree) returns (key: TrieRun.Key)
    requires SubOf(x, t) && Inner(x) && Canonical(t) && ByteKeys(t)
    ensures Lookup(t, KeybytesToHex(key)).Some? && OnWay(x, t, KeybytesToHex(key))
  {
    var h := KeyThrough(x, t);
    key := HexToKeybytes(h);
    TrieRun.HexOfBytes(h, key);
  }

  lemma RootStands(w: World, db: Db, t: Tree)
    requires w.Valid() && Sound(w, db) && Inner(t) && Canonical(t) && Covers(w, t)
    ensures Stands(w, db, HashN(NodeHash(w, t)), t, true)
  {}

  lemma RightReads(w: World, db: Db, t: Tree, key: TrieRun.Key)
    requires ReadsRight(w, db, t, key)
    ensures Reads(w, db, t, key)
  {}

  lemma ReadsPass(w: World, db: Db, t: Tree, x: Tree, key: TrieRun.Key)
    requires w.Valid() && Sound(w, db) && Inner(t) && Canonical(t) && Covers(w, t)
    requires Reads(w, db, t, key) && OnWay(x, t, KeybytesToHex(key)) && (x == t || Large(w, x))
    ensures NodeHash(w, x) in db
  {
    hide Enc, Rep, TryGet, RefNode, Shallow, Stands, Covers;
    TrieRun.NotEmptyRoot(w, t);
    var h := NodeHash(w, t);
    RootStands(w, db, t);
    ResolveStands(w, db, h, t, true);
    if x != t {
      ShallowUnloaded(w, t, Some(h));
      GotLoaded(w, db, Shallow(w, t, Some(h)), KeybytesToHex(key), t, true, x);
    }
  }

  /** A trie reads every key it has, and reads it right, exactly if each of its entries is there. */
  lemma ReadsStored(w: World, db: Db, t: Tree)
    requires w.Valid() && Sound(w, db) && Inner(t) && Canonical(t) && Covers(w, t) && ByteKeys(t)
    ensures ReadsAll(w, db, t) <==> Stored(w, db, t)
    ensures ReadsAll(w, db, t) <==> forall key :: ReadsRight(w, db, t, key)
  {
    hide Enc, Stored, Covers, ByteKeys, OnWay, Reads, ReadsRight, Canonical;
    if Stored(w, db, t) {
      forall key
        ensures Reads(w, db, t, key) && ReadsRight(w, db, t, key)
      {
        StoredReads(w, db, t, key);
        RightReads(w, db, t, key);
      }
    }
    forall key | ReadsRight(w, db, t, key)
      ensures Reads(w, db, t, key)
    {
      RightReads(w, db, t, key);
    }
    if ReadsAll(w, db, t) {
      forall x | EntryOf(w, x, t)
        ensures NodeHash(w, x) in db
      {
        var key := ByteKeyThrough(x, t);
        ReadsPass(w, db, t, x, key);
      }
      StoredEntries(w, db, t);
    }
  }

  /** A referenced trie reads every key right exactly if the children of its nodes inserted as blobs are there. */
  lemma ReferencedReadsIff(w: World, u: Universe, s: Cache, size: TrieDatabase.Sizes, t: Tree)
    requires Gc.Good(u, s, size, [], multiset{}) && u.zero in s.d && TrieDatabase.Cnt(s.d[u.zero], NodeHash(w, t)) > 0
    requires Inner(t) && Canonical(t) && DescribesNode(w, u, t) && Describes(w, u, t)
    requires w.Valid() && Covers(w, t) && Sound(w, ViewOf(u, s)) && ByteKeys(t)
    ensures ReadsAll(w, ViewOf(u, s), t) <==> Held.Mended(u, s, NodeHash(w, t))
  {
    hide *;
    ReferencedHeld(w, u, s, size, t);
    ReadsStored(w, ViewOf(u, s), t);
  }

  /** So does a trie on the disk, by the nodes that came there as blobs. */
  lemma CommittedReadsIff(w: World, u: Universe, disk: Db, plain: set<Hash>, t: Tree)
    requires TrieDatabase.Closed(u, disk, plain) && NodeHash(w, t) in disk
    requires Inner(t) && Canonical(t) && DescribesNode(w, u, t) && Describes(w, u, t)
    requires w.Valid() && Covers(w, t) && Sound(w, disk) && ByteKeys(t)
    ensures ReadsAll(w, disk, t) <==> Held.MendedDisk(u, disk, plain, NodeHash(w, t))
  {
    hide *;
    CommittedHeld(w, u, disk, plain, t);
    ReadsStored(w, disk, t);
  }
}
