/**
 * Hashing and storing (proton/trie/hasher.go, and the collapsed node form of database.go):
 * nodes are collapsed bottom-up, cached hashes are reused, and in commit mode every node of
 * 32 bytes and more, and the root, is written to the database.
 */
module TrieHasher {
  import opened Bytes
  import opened Rlp
  import opened TrieEncoding
  import opened TrieTree
  import opened TrieNode
  import opened TrieLazy

  /** A collapsed node: keys in compact form, no cache flags. */
  datatype Raw =
    | RNil
    | RVal(v: seq<byte>)
    | RHash(h: Hash)
    | RShort(key: seq<byte>, val: Raw)
    | RFull(children: seq<Raw>)

  function RawItem(r: Raw): (it: Item) {
    match r
    case RNil => Str([])
    case RVal(v) => Str(v)
    case RHash(h) => Str(h)
    case RShort(k, val) => List([Str(k), RawItem(val)])
    case RFull(cs) => List(seq(|cs|, i requires 0 <= i < |cs| => RawItem(cs[i])))
  }

  datatype Hashed = Hashed(raw: Raw, cached: Node, db: Db)

  datatype HashedKids = HashedKids(raws: seq<Raw>, cached: seq<Node>, db: Db)

  function CachedHash(n: Node): (h: Option<Hash>) {
    if n.Short? || n.Full? then n.flag.hash else None
  }

  function IsDirty(n: Node): (d: bool) {
    if n.Short? || n.Full? then n.flag.dirty else true
  }

  /** Values and hashes have no children and are left as they are. */
  function RawLeaf(n: Node): (r: Raw) {
    match n
    case Val(v) => RVal(v)
    case HashN(h) => RHash(h)
    case _ => RNil
  }

  /** hash: the collapsed or hashed form, and the node with its hash cached in. */
  function HashNode(w: World, n: Node, db: Db, commit: bool, force: bool): (r: Hashed)
    decreases n, 3
  {
    var h := CachedHash(n);
    if h.Some? && !commit then Hashed(RHash(h.value), n, db)
    else if h.Some? && !IsDirty(n) then Hashed(RHash(h.value), HashN(h.value), db)
    else
      var kids := HashChildren(w, n, db, commit);
      var s := Store(w, kids.raw, h, kids.db, commit, force);
      Hashed(s.0, Remember(kids.cached, s.0, commit), s.1)
  }

  /** The computed hash goes into the cache; committing also clears the dirty flag. */
  function Remember(n: Node, raw: Raw, commit: bool): (r: Node) {
    var h := if raw.RHash? then Some(raw.h) else None;
    match n
    case Short(k, v, flag) => Short(k, v, Flag(h, if commit then false else flag.dirty))
    case Full(cs, flag) => Full(cs, Flag(h, if commit then false else flag.dirty))
    case _ => n
  }

  function HashChildren(w: World, n: Node, db: Db, commit: bool): (r: Hashed)
    decreases n, 2
  {
    match n
    case Short(k, val, flag) =>
      if val.Val? then Hashed(RShort(Compact(k), RVal(val.v)), n, db)
      else
        var r := HashNode(w, val, db, commit, false);
        Hashed(RShort(Compact(k), r.raw), Short(k, r.cached, flag), r.db)
    case Full(cs, flag) =>
      var r := HashKids(w, cs, 0, db, commit);
      Hashed(RFull(r.raws), Full(r.cached, flag), r.db)
    case _ => Hashed(RawLeaf(n), n, db)
  }

  /** The loop over a full node's children; the value slot is copied. */
  function HashKids(w: World, cs: seq<Node>, i: nat, db: Db, commit: bool): (r: HashedKids)
    requires i <= |cs|
    ensures |r.raws| == |r.cached| == |cs| - i
    decreases cs, 1, |cs| - i
  {
    if i == |cs| then HashedKids([], [], db)
    else
      var k :=
        if i < 16 && cs[i] != Nil then HashNode(w, cs[i], db, commit, false)
        else Hashed(RawLeaf(cs[i]), cs[i], db);
      var rest := HashKids(w, cs, i + 1, k.db, commit);
      HashedKids([k.raw] + rest.raws, [k.cached] + rest.cached, rest.db)
  }

  /** store: small nodes stay inside their parent unless forced. */
  function Store(w: World, raw: Raw, cachedHash: Option<Hash>, db: Db, commit: bool, force: bool): (r: (Raw, Db)) {
    if raw.RNil? || raw.RHash? then (raw, db)
    else
      var enc := Encode(RawItem(raw));
      if |enc| < 32 && !force then (raw, db)
      else
        var h := if cachedHash.Some? then cachedHash.value else w.H(enc);
        (RHash(h), if commit && h !in db then db[h := enc] else db)
  }

  // ---- collapsed form of a tree ----

  function Collapse(w: World, t: Tree): (r: Raw)
    decreases t, 0
  {
    match t
    case Empty => RNil
    case Leaf(v) => RVal(v)
    case Ext(k, c) => RShort(Compact(k), RefRaw(w, c))
    case Branch(subs) => RFull(RefRaws(w, subs))
  }

  function RefRaw(w: World, c: Tree): (r: Raw)
    decreases c, 1
  {
    if Large(w, c) then RHash(NodeHash(w, c)) else Collapse(w, c)
  }

  function RefRaws(w: World, subs: seq<Tree>): (rs: seq<Raw>)
    ensures |rs| == |subs|
    ensures forall i :: 0 <= i < |subs| ==> rs[i] == RefRaw(w, subs[i])
    decreases subs, 2
  {
    seq(|subs|, i requires 0 <= i < |subs| => RefRaw(w, subs[i]))
  }

  lemma {:induction false} CollapseItem(w: World, t: Tree)
    ensures RawItem(Collapse(w, t)) == ItemOf(w, t)
    decreases t, 0
  {
    match t
    case Ext(k, c) => RefRawItem(w, c);
    case Branch(subs) =>
      var cs := RefRaws(w, subs);
      forall i | 0 <= i < |subs|
        ensures RawItem(cs[i]) == RefItem(w, subs[i])
      {
        RefRawItem(w, subs[i]);
      }
      assert RawItem(RFull(cs)).items == RefItems(w, subs);
    case _ =>
  }

  lemma {:induction false} RefRawItem(w: World, t: Tree)
    ensures RawItem(RefRaw(w, t)) == RefItem(w, t)
    decreases t, 1
  {
    if !Large(w, t) {
      CollapseItem(w, t);
    }
  }

  /** expandNode: a collapsed node from the dirty cache, back in memory form. */
  function ExpandNode(hash: Option<Hash>, r: Raw): (n: Node)
    decreases r
  {
    match r
    case RNil => Nil
    case RVal(v) => Val(v)
    case RHash(h) => HashN(h)
    case RShort(k, val) => Short(CompactToHex(k), ExpandNode(None, val), Flag(hash, false))
    case RFull(cs) => Full(seq(|cs|, i requires 0 <= i < |cs| => ExpandNode(None, cs[i])), Flag(hash, false))
  }

  /** The dirty cache and the disk give the same node: expanding the collapsed form is decoding its encoding. */
  lemma ExpandIsDecode(w: World, t: Tree, hash: Option<Hash>)
    requires Canonical(t) && Inner(t) && |Enc(w, t)| < TWO64
    ensures DecodeNode(hash, Encode(RawItem(Collapse(w, t)))) == Ok(ExpandNode(hash, Collapse(w, t)))
  {
    CollapseItem(w, t);
    DecodeEnc(w, t, hash);
    ExpandCollapse(w, t, hash);
  }

  lemma {:induction false} ExpandCollapse(w: World, t: Tree, hash: Option<Hash>)
    requires Canonical(t) && Inner(t)
    ensures ExpandNode(hash, Collapse(w, t)) == Shallow(w, t, hash)
    decreases t, 0
  {
    if t.Ext? {
      CompactRoundTrip(t.key);
      ExpandRef(w, t.sub);
    } else {
      var cs := RefRaws(w, t.subs);
      forall i | 0 <= i < 17
        ensures ExpandNode(None, cs[i]) == RefNode(w, t.subs[i])
      {
        ExpandRef(w, t.subs[i]);
      }
      assert ExpandNode(hash, RFull(cs)).children == RefNodes(w, t.subs);
    }
  }

  lemma {:induction false} ExpandRef(w: World, t: Tree)
    requires Minimal(t)
    ensures ExpandNode(None, RefRaw(w, t)) == RefNode(w, t)
    decreases t, 1
  {
    if Inner(t) && !Large(w, t) {
      ExpandCollapse(w, t, None);
    }
  }

  // ---- what is stored ----

  /** Every descendant that has an entry of its own is in the database. */
  ghost predicate Below(w: World, db: Db, t: Tree)
    decreases t, 0
  {
    match t
    case Ext(_, c) => Kid(w, db, c)
    case Branch(subs) => forall i :: 0 <= i < |subs| ==> Kid(w, db, subs[i])
    case _ => true
  }

  ghost predicate Kid(w: World, db: Db, t: Tree)
    decreases t, 1
  {
    (Large(w, t) ==> NodeHash(w, t) in db) && Below(w, db, t)
  }

  ghost predicate Stored(w: World, db: Db, t: Tree) {
    NodeHash(w, t) in db && Below(w, db, t)
  }

  /** The root always has an entry of its own, other nodes only from 32 bytes on. */
  ghost predicate Held(w: World, db: Db, t: Tree, root: bool) {
    if root then Stored(w, db, t) else Kid(w, db, t)
  }

  /** Unloaded and clean parts of the node are in the database. */
  ghost predicate Backed(w: World, db: Db, n: Node, t: Tree, root: bool)
    decreases t, n
  {
    match n
    case HashN(_) => Held(w, db, t, root)
    case Short(_, val, flag) =>
      t.Ext? && Backed(w, db, val, t.sub, false) && (!flag.dirty ==> Held(w, db, t, root))
    case Full(cs, flag) =>
      && t.Branch? && |cs| == |t.subs| && (!flag.dirty ==> Held(w, db, t, root))
      && forall i :: 0 <= i < |cs| ==> Backed(w, db, cs[i], t.subs[i], false)
    case _ => true
  }

  ghost predicate Grown(db: Db, db': Db) {
    forall h :: h in db ==> h in db' && db'[h] == db[h]
  }

  lemma {:induction false} BelowGrown(w: World, db: Db, db': Db, t: Tree)
    requires Grown(db, db')
    ensures Below(w, db, t) ==> Below(w, db', t)
    ensures Kid(w, db, t) ==> Kid(w, db', t)
    decreases t
  {
    match t
    case Ext(_, c) => BelowGrown(w, db, db', c);
    case Branch(subs) =>
      forall i | 0 <= i < |subs|
        ensures Kid(w, db, subs[i]) ==> Kid(w, db', subs[i])
      {
        BelowGrown(w, db, db', subs[i]);
      }
    case _ =>
  }

  lemma {:induction false} BackedGrown(w: World, db: Db, db': Db, n: Node, t: Tree, root: bool)
    requires Grown(db, db') && Backed(w, db, n, t, root)
    ensures Backed(w, db', n, t, root)
    decreases t, n
  {
    BelowGrown(w, db, db', t);
    match n
    case Short(_, val, _) => BackedGrown(w, db, db', val, t.sub, false);
    case Full(cs, _) =>
      forall i | 0 <= i < |cs|
        ensures Backed(w, db', cs[i], t.subs[i], false)
      {
        BackedGrown(w, db, db', cs[i], t.subs[i], false);
      }
    case _ =>
  }

  // ---- hashing is transparent ----

  /** What hash promises about a node that stands for t. */
  ghost predicate HashOk(w: World, n: Node, t: Tree, db: Db, commit: bool, root: bool, r: Hashed) {
    && r.raw == (if root then RHash(NodeHash(w, t)) else RefRaw(w, t))
    && Rep(w, r.cached, t, root)
    && DbOk(w, db, commit, r.db)
    && (Backed(w, db, n, t, root) ==> Backed(w, r.db, r.cached, t, root) && (commit ==> Held(w, r.db, t, root)))
  }

  ghost predicate DbOk(w: World, db: Db, commit: bool, db': Db) {
    Sound(w, db') && Grown(db, db') && (!commit ==> db' == db)
  }

  /** The same for the children: the node is collapsed, its children are hashed. */
  ghost predicate ChildrenOk(w: World, n: Node, t: Tree, db: Db, commit: bool, r: Hashed) {
    && r.raw == Collapse(w, t)
    && DbOk(w, db, commit, r.db)
    && (n.Short? ==>
      && t.Ext? && r.cached.Short? && r.cached.key == n.key && r.cached.flag == n.flag
      && Rep(w, r.cached.val, t.sub, false))
    && (n.Full? ==> t.Branch? && r.cached.Full? && r.cached.flag == n.flag && RepAll(w, r.cached.children, t.subs))
    && (BackedKids(w, db, n, t) ==> BackedKids(w, r.db, r.cached, t) && (commit ==> Below(w, r.db, t)))
  }

  ghost predicate BackedAll(w: World, db: Db, cs: seq<Node>, subs: seq<Tree>) {
    |cs| == |subs| && forall i :: 0 <= i < |cs| ==> Backed(w, db, cs[i], subs[i], false)
  }

  ghost predicate BackedKids(w: World, db: Db, n: Node, t: Tree) {
    match n
    case Short(_, val, _) => t.Ext? && Backed(w, db, val, t.sub, false)
    case Full(cs, _) => t.Branch? && BackedAll(w, db, cs, t.subs)
    case _ => true
  }

  lemma {:induction false} HashCorrect(w: World, n: Node, t: Tree, db: Db, commit: bool, root: bool)
    requires Stands(w, db, n, t, root) && Inner(t)
    ensures HashOk(w, n, t, db, commit, root, HashNode(w, n, db, commit, root))
    decreases n, 3
  {
    hide Sound;
    hide Covers;
    hide Enc;
    var h := CachedHash(n);
    if n.HashN? || (h.Some? && (!commit || !IsDirty(n))) {
    } else {
      ChildrenCorrect(w, n, t, db, commit, root);
      StoreCorrect(w, n, t, db, commit, root, HashChildren(w, n, db, commit));
    }
  }

  /** Writing the node itself, once its children are done. */
  lemma StoreCorrect(w: World, n: Node, t: Tree, db: Db, commit: bool, root: bool, kids: Hashed)
    requires w.Valid() && Covers(w, t) && Rep(w, n, t, root) && (n.Short? || n.Full?)
    requires ChildrenOk(w, n, t, db, commit, kids)
    ensures
      var s := Store(w, kids.raw, n.flag.hash, kids.db, commit, root);
      HashOk(w, n, t, db, commit, root, Hashed(s.0, Remember(kids.cached, s.0, commit), s.1))
  {
    hide Sound;
    hide Rep;
    hide Below;
    hide Enc;
    hide Covers;
    hide Backed;
    hide BackedKids;
    hide Held;
    hide RefRaw;
    hide Collapse;
    hide Remember;
    hide Store;
    hide Large;
    var s := Store(w, kids.raw, n.flag.hash, kids.db, commit, root);
    FlagOfRep(w, n, t, root);
    StoreShape(w, t, n.flag.hash, kids.db, commit, root);
    RememberRep(w, n, t, kids.cached, s.0, commit, root);
    if Backed(w, db, n, t, root) {
      StoreBacked(w, n, t, db, commit, root, kids, s.0, s.1);
    }
  }

  lemma FlagOfRep(w: World, n: Node, t: Tree, root: bool)
    requires Rep(w, n, t, root) && (n.Short? || n.Full?)
    ensures FlagOk(w, n.flag, t, root)
  {}

  lemma StoreBacked(w: World, n: Node, t: Tree, db: Db, commit: bool, root: bool, kids: Hashed, raw: Raw, db': Db)
    requires n.Short? || n.Full?
    requires (kids.cached.Short? || kids.cached.Full?) && kids.cached.flag == n.flag
    requires Backed(w, db, n, t, root)
    requires BackedKids(w, db, n, t) ==> BackedKids(w, kids.db, kids.cached, t) && (commit ==> Below(w, kids.db, t))
    requires Grown(db, db') && Grown(kids.db, db')
    requires commit && (root || Large(w, t)) ==> NodeHash(w, t) in db'
    ensures Backed(w, db', Remember(kids.cached, raw, commit), t, root)
    ensures commit ==> Held(w, db', t, root)
  {
    BackedSplit(w, db, n, t, root);
    BelowGrown(w, kids.db, db', t);
    BelowGrown(w, db, db', t);
    BackedKidsGrown(w, kids.db, db', kids.cached, t);
    BackedRemember(w, db', kids.cached, raw, t, commit);
    BackedSplit(w, db', Remember(kids.cached, raw, commit), t, root);
    hide Backed;
    hide BackedKids;
    hide Below;
  }

  /** The node is replaced by its hash exactly when it has to be, and then it is in the database. */
  lemma StoreShape(w: World, t: Tree, hash: Option<Hash>, db: Db, commit: bool, root: bool)
    requires w.Valid() && Sound(w, db) && Inner(t) && Covers(w, t) && (hash.Some? ==> hash.value == NodeHash(w, t))
    ensures
      var s := Store(w, Collapse(w, t), hash, db, commit, root);
      && s.0 == (if root then RHash(NodeHash(w, t)) else RefRaw(w, t))
      && DbOk(w, db, commit, s.1)
      && (commit && (root || Large(w, t)) ==> NodeHash(w, t) in s.1)
  {
    hide Covers;
    hide Collapse;
    hide RawItem;
    hide ItemOf;
    CollapseItem(w, t);
    CoversEnc(w, t);
    CollapseInner(w, t);
  }

  lemma CollapseInner(w: World, t: Tree)
    requires Inner(t)
    ensures var r := Collapse(w, t);
      (r.RShort? || r.RFull?) && RefRaw(w, t) == if Large(w, t) then RHash(NodeHash(w, t)) else r
  {}

  lemma BackedRemember(w: World, db: Db, n: Node, raw: Raw, t: Tree, commit: bool)
    ensures BackedKids(w, db, Remember(n, raw, commit), t) <==> BackedKids(w, db, n, t)
  {}

  /** Backing of a node is backing of its children, and of itself if it is clean. */
  lemma BackedSplit(w: World, db: Db, n: Node, t: Tree, root: bool)
    requires n.Short? || n.Full?
    ensures Backed(w, db, n, t, root) <==> BackedKids(w, db, n, t) && (!n.flag.dirty ==> Held(w, db, t, root))
  {}

  lemma BackedKidsGrown(w: World, db: Db, db': Db, n: Node, t: Tree)
    requires Grown(db, db') && BackedKids(w, db, n, t)
    ensures BackedKids(w, db', n, t)
  {
    match n
    case Short(_, val, _) => BackedGrown(w, db, db', val, t.sub, false);
    case Full(cs, _) =>
      forall i | 0 <= i < |cs|
        ensures Backed(w, db', cs[i], t.subs[i], false)
      {
        BackedGrown(w, db, db', cs[i], t.subs[i], false);
      }
    case _ =>
  }

  lemma RememberRep(w: World, n: Node, t: Tree, kids: Node, raw: Raw, commit: bool, root: bool)
    requires n.Short? || n.Full?
    requires Rep(w, n, t, root)
    requires n.Short? ==> kids.Short? && kids.key == n.key && Rep(w, kids.val, t.sub, false)
    requires n.Full? ==> kids.Full? && RepAll(w, kids.children, t.subs)
    requires raw == if root then RHash(NodeHash(w, t)) else RefRaw(w, t)
    ensures Rep(w, Remember(kids, raw, commit), t, root)
  {
    hide Enc;
  }

  lemma {:induction false} ChildrenCorrect(w: World, n: Node, t: Tree, db: Db, commit: bool, root: bool)
    requires Stands(w, db, n, t, root) && (n.Short? || n.Full?)
    ensures ChildrenOk(w, n, t, db, commit, HashChildren(w, n, db, commit))
    decreases n, 2
  {
    if n.Short? {
      ChildShort(w, n, t, db, commit, root);
    } else {
      StandsFull(w, db, n, t, root, 0);
      KidsCorrect(w, n.children, t.subs, 0, db, commit);
      assert t.subs[0..] == t.subs && n.children[0..] == n.children;
      ChildrenFull(w, n, t, db, commit, HashKids(w, n.children, 0, db, commit));
    }
  }

  lemma {:induction false} ChildShort(w: World, n: Node, t: Tree, db: Db, commit: bool, root: bool)
    requires Stands(w, db, n, t, root) && n.Short?
    ensures ChildrenOk(w, n, t, db, commit, HashChildren(w, n, db, commit))
    decreases n, 1
  {
    hide Enc;
    hide Sound;
    StandsShort(w, db, n, t, root);
    assert Sound(w, db);
    hide Stands;
    if !n.val.Val? {
      HashCorrect(w, n.val, t.sub, db, commit, false);
      hide Rep;
      hide Backed;
    } else {
      assert t.sub == Leaf(n.val.v);
      assert RefRaw(w, t.sub) == RVal(n.val.v);
      assert Kid(w, db, t.sub);
    }
  }

  lemma ChildrenFull(w: World, n: Node, t: Tree, db: Db, commit: bool, r: HashedKids)
    requires n.Full? && t.Branch? && KidsOk(w, n.children, t.subs, db, commit, r)
    ensures ChildrenOk(w, n, t, db, commit, Hashed(RFull(r.raws), Full(r.cached, n.flag), r.db))
  {
    hide Rep;
    hide Backed;
    hide RefRaws;
    hide Sound;
  }

  /** What the loop over the children from position i on promises. */
  ghost predicate KidsOk(w: World, cs: seq<Node>, subs: seq<Tree>, db: Db, commit: bool, r: HashedKids) {
    && r.raws == RefRaws(w, subs)
    && RepAll(w, r.cached, subs)
    && DbOk(w, db, commit, r.db)
    && (BackedAll(w, db, cs, subs) ==>
        BackedAll(w, r.db, r.cached, subs) && (commit ==> KidAll(w, r.db, subs)))
  }

  ghost predicate KidAll(w: World, db: Db, subs: seq<Tree>) {
    forall j :: 0 <= j < |subs| ==> Kid(w, db, subs[j])
  }

  lemma {:induction false} KidsCorrect(w: World, cs: seq<Node>, subs: seq<Tree>, i: nat, db: Db, commit: bool)
    requires w.Valid() && Sound(w, db) && RepAll(w, cs, subs) && |subs| == 17 && i <= 17
    requires forall j :: 0 <= j < 17 ==> Covers(w, subs[j]) && Minimal(subs[j])
    requires forall j :: 0 <= j < 16 ==> Canonical(subs[j])
    requires LeafSlot(subs[16])
    ensures KidsOk(w, cs[i..], subs[i..], db, commit, HashKids(w, cs, i, db, commit))
    decreases cs, 1, |cs| - i
  {
    if i == 17 {
      assert RefRaws(w, subs[17..]) == [];
    } else {
      var k :=
        if i < 16 && cs[i] != Nil then HashNode(w, cs[i], db, commit, false)
        else Hashed(RawLeaf(cs[i]), cs[i], db);
      if i < 16 && cs[i] != Nil {
        HashCorrect(w, cs[i], subs[i], db, commit, false);
      } else {
        SlotOk(w, cs[i], subs[i], db, commit);
      }
      hide Sound;
      hide Covers;
      hide Canonical;
      hide Minimal;
      hide Rep;
      hide Backed;
      hide RefRaws;
      KidsCorrect(w, cs, subs, i + 1, k.db, commit);
      KidsCons(w, cs[i..], subs[i..], db, commit, k, HashKids(w, cs, i + 1, k.db, commit));
    }
  }

  /** The value slot, and slots without a child, are taken as they are. */
  lemma SlotOk(w: World, c: Node, t: Tree, db: Db, commit: bool)
    requires Sound(w, db) && Rep(w, c, t, false) && (c == Nil || LeafSlot(t))
    ensures HashOk(w, c, t, db, commit, false, Hashed(RawLeaf(c), c, db))
  {
    hide Sound;
    assert RawLeaf(c) == RefRaw(w, t);
    assert Kid(w, db, t);
  }

  lemma KidsCons(w: World, cs: seq<Node>, subs: seq<Tree>, db: Db, commit: bool, k: Hashed, rest: HashedKids)
    requires |cs| == |subs| > 0
    requires HashOk(w, cs[0], subs[0], db, commit, false, k)
    requires KidsOk(w, cs[1..], subs[1..], k.db, commit, rest)
    ensures KidsOk(w, cs, subs, db, commit, HashedKids([k.raw] + rest.raws, [k.cached] + rest.cached, rest.db))
  {
    hide Sound;
    hide Rep;
    hide Backed;
    RefRawsCons(w, subs);
    RepAllCons(w, k.cached, rest.cached, subs);
    if BackedAll(w, db, cs, subs) {
      BackedGrown(w, k.db, rest.db, k.cached, subs[0], false);
      BelowGrown(w, k.db, rest.db, subs[0]);
      BackedTail(w, db, k.db, cs, subs);
      BackedAllCons(w, rest.db, k.cached, rest.cached, subs);
    }
    hide Kid;
    hide RefRaws;
    hide RepAll;
    hide BackedAll;
    hide KidAll;
  }

  lemma BackedAllCons(w: World, db: Db, c: Node, cs: seq<Node>, subs: seq<Tree>)
    requires subs != [] && Backed(w, db, c, subs[0], false) && BackedAll(w, db, cs, subs[1..])
    ensures BackedAll(w, db, [c] + cs, subs)
    ensures Kid(w, db, subs[0]) && KidAll(w, db, subs[1..]) ==> KidAll(w, db, subs)
  {
    hide Backed;
    hide Kid;
  }

  lemma RefRawsCons(w: World, subs: seq<Tree>)
    requires subs != []
    ensures RefRaws(w, subs) == [RefRaw(w, subs[0])] + RefRaws(w, subs[1..])
  {
    hide RefRaw;
  }

  lemma RepAllCons(w: World, c: Node, cs: seq<Node>, subs: seq<Tree>)
    requires subs != [] && Rep(w, c, subs[0], false) && RepAll(w, cs, subs[1..])
    ensures RepAll(w, [c] + cs, subs)
  {
    hide Rep;
  }

  lemma BackedTail(w: World, db: Db, db': Db, cs: seq<Node>, subs: seq<Tree>)
    requires Grown(db, db') && BackedAll(w, db, cs, subs) && cs != []
    ensures BackedAll(w, db', cs[1..], subs[1..])
  {
    forall j | 0 <= j < |subs| - 1
      ensures Backed(w, db', cs[1..][j], subs[1..][j], false)
    {
      BackedGrown(w, db, db', cs[j + 1], subs[j + 1], false);
    }
  }
}
