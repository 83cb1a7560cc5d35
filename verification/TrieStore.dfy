/**
 * Tries on top of the write cache: the embedded children of a collapsed node
 * (gatherChildren in proton/trie/database.go) are the hashes of the subtrees that have entries
 * of their own, so a trie whose root is still referenced can be read completely.
 */
module TrieStore {
  import opened TrieEncoding
  import opened TrieTree
  import opened TrieNode
  import opened TrieLazy
  import opened TrieHasher
  import opened TrieBacked
  import TrieRun
  import TrieDatabase
  import Gc = TrieGc
  import Held = TrieHeld

  /** The hash nodes inside a collapsed node; the value slot of a branch is not looked at. */
  function Gather(r: Raw): (hs: seq<Hash>)
    decreases r, 0
  {
    match r
    case RShort(_, val) => Gather(val)
    case RFull(cs) => GatherAll(cs, 0)
    case RHash(h) => [h]
    case _ => []
  }

  function GatherAll(cs: seq<Raw>, i: nat): (hs: seq<Hash>)
    decreases cs, 16 - i
  {
    if i >= 16 || i >= |cs| then [] else Gather(cs[i]) + GatherAll(cs, i + 1)
  }

  lemma {:induction false} GatherChild(cs: seq<Raw>, i: nat, j: nat)
    requires i <= j < 16 && j < |cs|
    ensures forall h :: h in Gather(cs[j]) ==> h in GatherAll(cs, i)
    decreases j - i
  {
    if i < j {
      GatherChild(cs, i + 1, j);
    }
  }

  type Universe = TrieDatabase.Universe<Hash>
  type Cache = TrieDatabase.Cache<Hash>

  /** The hashes of the tree's nodes stand for their encodings and for the children gathered from them. */
  ghost predicate DescribesNode(w: World, u: Universe, t: Tree) {
    u.blob(NodeHash(w, t)) == Enc(w, t) && u.kids(NodeHash(w, t)) == Gather(Collapse(w, t))
  }

  ghost predicate Describes(w: World, u: Universe, t: Tree) {
    match t
    case Ext(_, c) => (Large(w, c) ==> DescribesNode(w, u, c)) && Describes(w, u, c)
    case Branch(subs) =>
      forall i :: 0 <= i < |subs| ==> (Large(w, subs[i]) ==> DescribesNode(w, u, subs[i])) && Describes(w, u, subs[i])
    case _ => true
  }

  /** The cache as one database: dirty nodes first, then the disk. */
  ghost function ViewOf(u: Universe, s: Cache): (db: Db) {
    map h | h in s.d.Keys + s.disk.Keys && h != u.zero :: if h in s.d then s.d[h].blob else s.disk[h]
  }

  lemma LeafKid(w: World, db: Db, t: Tree)
    requires !Inner(t)
    ensures Kid(w, db, t)
  {}

  // ---- the entries of a trie ----

  ghost predicate SubOf(x: Tree, t: Tree)
    decreases t, 1
  {
    x == t || Inside(x, t)
  }

  ghost predicate Inside(x: Tree, t: Tree)
    decreases t, 0
  {
    match t
    case Ext(_, c) => SubOf(x, c)
    case Branch(subs) => exists i :: 0 <= i < |subs| && SubOf(x, subs[i])
    case _ => false
  }

  lemma {:induction false} InsideTrans(x: Tree, y: Tree, t: Tree)
    requires SubOf(x, y) && Inside(y, t)
    ensures Inside(x, t)
    decreases t
  {
    match t
    case Ext(_, c) =>
      if y != c {
        InsideTrans(x, y, c);
      }
    case Branch(subs) =>
      var i :| 0 <= i < |subs| && SubOf(y, subs[i]);
      if y != subs[i] {
        InsideTrans(x, y, subs[i]);
      }
      assert SubOf(x, subs[i]);
  }

  lemma SubTrans(x: Tree, y: Tree, t: Tree)
    requires SubOf(x, y) && SubOf(y, t)
    ensures SubOf(x, t)
  {
    if y != t {
      InsideTrans(x, y, t);
    }
  }

  lemma InnerAbove(x: Tree, t: Tree)
    requires SubOf(x, t) && Inner(x)
    ensures Inner(t)
  {}

  lemma {:induction false} SubCovered(w: World, x: Tree, t: Tree)
    requires SubOf(x, t) && Inner(x) && Canonical(t) && Covers(w, t)
    ensures Canonical(x) && Covers(w, x)
    decreases t
  {
    hide Enc;
    if x != t {
      match t
      case Ext(_, c) =>
        InnerAbove(x, c);
        SubCovered(w, x, c);
      case Branch(subs) =>
        var i :| 0 <= i < |subs| && SubOf(x, subs[i]);
        InnerAbove(x, subs[i]);
        assert i < 16;
        SubCovered(w, x, subs[i]);
    }
  }

  /** The nodes with entries of their own: the root, and the others from 32 bytes on. */
  ghost predicate EntryOf(w: World, x: Tree, t: Tree) {
    (x == t && Inner(t)) || (Inside(x, t) && Large(w, x))
  }

  /** Everything below a node is stored exactly if all entries there are. */
  lemma {:induction false} BelowEntries(w: World, db: Db, t: Tree)
    ensures Below(w, db, t) <==> forall x :: Inside(x, t) && Large(w, x) ==> NodeHash(w, x) in db
    decreases t
  {
    hide Enc;
    hide Large;
    match t
    case Ext(_, c) =>
      BelowEntries(w, db, c);
      assert SubOf(c, c);
    case Branch(subs) =>
      forall i | 0 <= i < |subs|
        ensures Below(w, db, subs[i]) <==> forall x :: Inside(x, subs[i]) && Large(w, x) ==> NodeHash(w, x) in db
        ensures SubOf(subs[i], subs[i])
      {
        BelowEntries(w, db, subs[i]);
      }
    case _ =>
  }

  lemma StoredEntries(w: World, db: Db, t: Tree)
    requires Inner(t)
    ensures Stored(w, db, t) <==> forall x :: EntryOf(w, x, t) ==> NodeHash(w, x) in db
  {
    hide Below;
    hide Inside;
    BelowEntries(w, db, t);
    assert EntryOf(w, t, t);
  }

  lemma {:induction false} GatheredFrom(cs: seq<Raw>, i: nat, h: Hash) returns (j: nat)
    requires h in GatherAll(cs, i)
    ensures i <= j < 16 && j < |cs| && h in Gather(cs[j])
    decreases 16 - i
  {
    j := i;
    if h !in Gather(cs[i]) {
      j := GatheredFrom(cs, i + 1, h);
    }
  }

  /** A gathered hash is that of an entry further down. */
  lemma {:induction false} GatheredSub(w: World, t: Tree, h: Hash) returns (x: Tree)
    requires h in Gather(Collapse(w, t)) && Canonical(t)
    ensures Inside(x, t) && Large(w, x) && NodeHash(w, x) == h && Canonical(x)
    decreases t, 0
  {
    hide Enc;
    hide Large;
    match t
    case Ext(k, c) =>
      x := GatheredUnder(w, c, h);
    case Branch(subs) =>
      var i := GatheredFrom(RefRaws(w, subs), 0, h);
      x := GatheredUnder(w, subs[i], h);
  }

  lemma {:induction false} GatheredUnder(w: World, c: Tree, h: Hash) returns (x: Tree)
    requires h in Gather(RefRaw(w, c)) && (Inner(c) ==> Canonical(c))
    ensures SubOf(x, c) && Large(w, x) && NodeHash(w, x) == h && Canonical(x)
    decreases c, 1
  {
    hide Enc;
    if Large(w, c) {
      x := c;
    } else {
      x := GatheredSub(w, c, h);
    }
  }

  lemma {:induction false} DescribesInside(w: World, u: Universe, x: Tree, t: Tree)
    requires Describes(w, u, t) && Inside(x, t) && Large(w, x)
    ensures DescribesNode(w, u, x) && Describes(w, u, x)
    decreases t
  {
    hide Large;
    hide DescribesNode;
    match t
    case Ext(_, c) =>
      if x != c {
        DescribesInside(w, u, x, c);
      }
    case Branch(subs) =>
      var i :| 0 <= i < |subs| && SubOf(x, subs[i]);
      if x != subs[i] {
        DescribesInside(w, u, x, subs[i]);
      }
  }

  /** An entry below a node of which all gathered hashes are led to is led to. */
  lemma {:induction false} InsideLeads(w: World, u: Universe, root: Hash, x: Tree, t: Tree)
    requires Describes(w, u, t) && Canonical(t) && Inside(x, t) && Large(w, x)
    requires forall h :: h in Gather(Collapse(w, t)) ==> Held.Leads(u.kids, root, h)
    ensures Held.Leads(u.kids, root, NodeHash(w, x))
    decreases t, 0
  {
    hide Enc;
    hide Large;
    hide Held.Leads;
    match t
    case Ext(_, c) =>
      KidLeads(w, u, root, x, c);
    case Branch(subs) =>
      var i :| 0 <= i < |subs| && SubOf(x, subs[i]);
      if i < 16 {
        GatherChild(RefRaws(w, subs), 0, i);
        KidLeads(w, u, root, x, subs[i]);
      } else {
        NoneInLeaf(w, x, subs[i]);
      }
  }

  lemma NoneInLeaf(w: World, x: Tree, t: Tree)
    requires LeafSlot(t) && SubOf(x, t)
    ensures !Large(w, x)
  {}

  lemma {:induction false} KidLeads(w: World, u: Universe, root: Hash, x: Tree, c: Tree)
    requires Describes(w, u, c) && (Large(w, c) ==> DescribesNode(w, u, c)) && SubOf(x, c) && Large(w, x)
    requires Inner(c) ==> Canonical(c)
    requires forall h :: h in Gather(RefRaw(w, c)) ==> Held.Leads(u.kids, root, h)
    ensures Held.Leads(u.kids, root, NodeHash(w, x))
    decreases c, 1
  {
    hide Enc;
    hide Held.Leads;
    if Large(w, c) {
      assert NodeHash(w, c) in Gather(RefRaw(w, c));
      forall h | h in Gather(Collapse(w, c))
        ensures Held.Leads(u.kids, root, h)
      {
        Held.LeadsStep(u.kids, root, NodeHash(w, c), h);
      }
    }
    if x != c {
      InsideLeads(w, u, root, x, c);
    }
  }

  /** What the root leads to are the entries of the trie. */
  lemma LeadsEntries(w: World, u: Universe, t: Tree, h: Hash)
    requires Inner(t) && Canonical(t) && DescribesNode(w, u, t) && Describes(w, u, t)
    ensures Held.Leads(u.kids, NodeHash(w, t), h) <==> exists x :: EntryOf(w, x, t) && NodeHash(w, x) == h
  {
    hide Enc;
    hide Held.Leads;
    hide Describes;
    var root := NodeHash(w, t);
    var here := iset k | HashIn(w, u, t, k);
    assert EntryOf(w, t, t);
    forall k, c | k in here && c in u.kids(k)
      ensures c in here
    {
      EntryKid(w, u, t, k, c);
    }
    Held.LeadsInside(u.kids, here, root);
    if x :| EntryOf(w, x, t) && NodeHash(w, x) == h {
      Held.LeadsSelf(u.kids, root);
      if x != t {
        forall k | k in Gather(Collapse(w, t))
          ensures Held.Leads(u.kids, root, k)
        {
          Held.LeadsStep(u.kids, root, root, k);
        }
        InsideLeads(w, u, root, x, t);
      }
    }
  }

  ghost predicate HashIn(w: World, u: Universe, t: Tree, h: Hash) {
    exists x :: EntryOf(w, x, t) && NodeHash(w, x) == h && Canonical(x) && DescribesNode(w, u, x)
  }

  lemma EntryKid(w: World, u: Universe, t: Tree, h: Hash, c: Hash)
    requires Describes(w, u, t) && HashIn(w, u, t, h) && c in u.kids(h)
    ensures HashIn(w, u, t, c)
  {
    hide Enc;
    hide Canonical;
    hide Large;
    var x :| EntryOf(w, x, t) && NodeHash(w, x) == h && Canonical(x) && DescribesNode(w, u, x);
    var y := GatheredSub(w, x, c);
    if x != t {
      InsideTrans(y, x, t);
    }
    DescribesInside(w, u, y, t);
    assert EntryOf(w, y, t);
  }

  /** A trie is stored exactly if all its root leads to is there. */
  lemma StoredLeads(w: World, u: Universe, db: Db, t: Tree)
    requires Inner(t) && Canonical(t) && DescribesNode(w, u, t) && Describes(w, u, t)
    ensures Stored(w, db, t) <==> forall h :: Held.Leads(u.kids, NodeHash(w, t), h) ==> h in db
  {
    hide Enc;
    hide Held.Leads;
    hide Describes;
    hide DescribesNode;
    hide EntryOf;
    hide Stored;
    StoredEntries(w, db, t);
    forall h
      ensures Held.Leads(u.kids, NodeHash(w, t), h) <==> exists x :: EntryOf(w, x, t) && NodeHash(w, x) == h
    {
      LeadsEntries(w, u, t, h);
    }
  }

  /**
   * A trie whose root can be read is held completely by the cache and the disk exactly if those of its
   * nodes that were only ever inserted as blobs have their children all the same.
   */
  lemma HeldTrie(w: World, u: Universe, s: Cache, size: TrieDatabase.Sizes, t: Tree)
    requires Gc.Good(u, s, size, [], multiset{}) && Gc.Readable(u.zero, s, NodeHash(w, t))
    requires Inner(t) && Canonical(t) && DescribesNode(w, u, t) && Describes(w, u, t)
    ensures Stored(w, ViewOf(u, s), t) <==> Held.Mended(u, s, NodeHash(w, t))
    ensures Stored(w, ViewOf(u, s), t) <==> Held.AllHeld(u.kids, u.zero, s, NodeHash(w, t))
  {
    hide Gc.Good;
    hide Stored;
    hide Held.Leads;
    hide Describes;
    hide DescribesNode;
    hide Held.Mended;
    StoredLeads(w, u, ViewOf(u, s), t);
    Held.HeldIff(u, s, size, NodeHash(w, t));
  }

  /** So it is for a trie whose root is referenced. */
  lemma ReferencedHeld(w: World, u: Universe, s: Cache, size: TrieDatabase.Sizes, t: Tree)
    requires Gc.Good(u, s, size, [], multiset{}) && u.zero in s.d && TrieDatabase.Cnt(s.d[u.zero], NodeHash(w, t)) > 0
    requires Inner(t) && Canonical(t) && DescribesNode(w, u, t) && Describes(w, u, t)
    ensures Stored(w, ViewOf(u, s), t) <==> Held.Mended(u, s, NodeHash(w, t))
  {
    hide Gc.Good;
    Gc.RootReadable(u, s, size, NodeHash(w, t));
    HeldTrie(w, u, s, size, t);
  }

  /** Everything in the view is what its hash stands for. */
  lemma ViewBlob(u: Universe, s: Cache, size: TrieDatabase.Sizes, h: Hash)
    requires Gc.Good(u, s, size, [], multiset{}) && h in ViewOf(u, s)
    ensures ViewOf(u, s)[h] == u.blob(h)
  {
    hide Gc.Good;
    if h in s.d {
      var i := Gc.Listed(u, s, size, [], multiset{}, h);
      hide TrieDatabase.Cut16;
    } else {
      Gc.StoredBlob(u, s, size, h);
    }
  }

  /** A view that only loses entries stays sound: so it does through Cap, Commit and Dereference. */
  lemma SoundLess(w: World, u: Universe, s: Cache, size: TrieDatabase.Sizes, s': Cache, size': TrieDatabase.Sizes)
    requires Gc.Good(u, s, size, [], multiset{}) && Gc.Good(u, s', size', [], multiset{}) && Sound(w, ViewOf(u, s))
    requires forall h :: h in s'.d || h in s'.disk ==> h in s.d || h in s.disk
    ensures Sound(w, ViewOf(u, s'))
  {
    hide Gc.Good;
    forall h | h in ViewOf(u, s')
      ensures ViewOf(u, s')[h] in w.D && w.H(ViewOf(u, s')[h]) == h
    {
      ViewBlob(u, s, size, h);
      ViewBlob(u, s', size', h);
    }
  }

  /** The trie at the tree's root hash opens over the database, and the key has the tree's value. */
  ghost predicate ReadsRight(w: World, db: Db, t: Tree, key: TrieRun.Key) {
    var st := TrieRun.Open(w, TrieRun.RootHash(w, t), db);
    && st.Some? && TrieRun.Good(w, st.value, t)
    && var r := TryGet(db, st.value.root, KeybytesToHex(key), w, t, true);
       r.Got? && r.value == Lookup(t, KeybytesToHex(key))
  }

  /** A trie that is stored reads every key, and reads it right. */
  lemma StoredReads(w: World, db: Db, t: Tree, key: TrieRun.Key)
    requires w.Valid() && Sound(w, db) && Inner(t) && Canonical(t) && Covers(w, t) && Stored(w, db, t)
    ensures ReadsRight(w, db, t, key)
  {
    hide Stored;
    hide Covers;
    TrieRun.OpenGood(w, db, t);
    var st := TrieRun.Open(w, TrieRun.RootHash(w, t), db).value;
    TryGetBacked(db, st.root, KeybytesToHex(key), w, t, true);
    TryGetCorrect(db, st.root, KeybytesToHex(key), w, t, true);
  }

  /**
   * Garbage collection is invisible to readers: whatever was inserted, dereferenced, capped and
   * committed before, a trie opened at a referenced root reads every key, and reads it right, if the
   * children of those of its nodes that were only ever inserted as blobs are there.
   */
  lemma ReferencedReads(w: World, u: Universe, s: Cache, size: TrieDatabase.Sizes, t: Tree, key: TrieRun.Key)
    requires Gc.Good(u, s, size, [], multiset{}) && u.zero in s.d && TrieDatabase.Cnt(s.d[u.zero], NodeHash(w, t)) > 0
    requires Inner(t) && Canonical(t) && DescribesNode(w, u, t) && Describes(w, u, t)
    requires w.Valid() && Covers(w, t) && Sound(w, ViewOf(u, s)) && Held.Mended(u, s, NodeHash(w, t))
    ensures ReadsRight(w, ViewOf(u, s), t, key)
  {
    hide Gc.Good;
    hide Held.Mended;
    hide ReadsRight;
    ReferencedHeld(w, u, s, size, t);
    StoredReads(w, ViewOf(u, s), t, key);
  }

  /** The disk alone holds a trie whose root is on it exactly if it is so of its nodes that came there as blobs. */
  lemma CommittedHeld(w: World, u: Universe, disk: Db, plain: set<Hash>, t: Tree)
    requires TrieDatabase.Closed(u, disk, plain) && NodeHash(w, t) in disk
    requires Inner(t) && Canonical(t) && DescribesNode(w, u, t) && Describes(w, u, t)
    ensures Stored(w, disk, t) <==> Held.MendedDisk(u, disk, plain, NodeHash(w, t))
  {
    hide Stored;
    hide Held.Leads;
    hide Held.MendedDisk;
    hide TrieDatabase.Closed;
    StoredLeads(w, u, disk, t);
    Held.StoredIff(u, disk, plain, NodeHash(w, t));
  }

  /** Then it opens from the disk alone, and every key reads as in the trie that was committed. */
  lemma CommittedReads(w: World, u: Universe, disk: Db, plain: set<Hash>, t: Tree, key: TrieRun.Key)
    requires TrieDatabase.Closed(u, disk, plain) && NodeHash(w, t) in disk
    requires Inner(t) && Canonical(t) && DescribesNode(w, u, t) && Describes(w, u, t)
    requires w.Valid() && Covers(w, t) && Sound(w, disk) && Held.MendedDisk(u, disk, plain, NodeHash(w, t))
    ensures ReadsRight(w, disk, t, key)
  {
    hide Held.MendedDisk;
    hide ReadsRight;
    CommittedHeld(w, u, disk, plain, t);
    StoredReads(w, disk, t, key);
  }
}
