/**
 * The Trie object of proton/trie/trie.go, and whole runs of it: every run refines a finite map,
 * its root hash depends on that map alone, and a committed root can be reopened.
 */
module TrieRun {
  import opened Bytes
  import opened Rlp
  import opened RlpRaw
  import opened TrieEncoding
  import opened TrieTree
  import opened TrieNode
  import opened TrieLazy
  import opened TrieHasher
  import opened TrieBacked

  type Key = seq<byte>
  type Value = seq<byte>
  type Map = map<Key, Value>

  /** Hash of the empty trie: that of the RLP empty string. */
  function EmptyRoot(w: World): (h: Hash) {
    w.H([0x80])
  }

  function RootHash(w: World, t: Tree): (h: Hash) {
    if t == Empty then EmptyRoot(w) else NodeHash(w, t)
  }

  // ---- trees and maps over key bytes ----

  /** What a map holds under a hex key; only keys of whole bytes are ever present. */
  function MapGet(m: Map, h: Hex): (r: Option<Value>)
    requires TermKey(h)
  {
    if |h| % 2 == 1 && HexToKeybytes(h) in m then Some(m[HexToKeybytes(h)]) else None
  }

  ghost predicate Represents(t: Tree, m: Map) {
    Canonical(t) && forall h :: TermKey(h) ==> Lookup(t, h) == MapGet(m, h)
  }

  /** TryUpdate on the tree: an empty value deletes. */
  function Update(t: Tree, key: Key, v: Value): (r: Tree) {
    if v != [] then Insert(t, KeybytesToHex(key), v) else Delete(t, KeybytesToHex(key))
  }

  function MapUpdate(m: Map, key: Key, v: Value): (r: Map) {
    if v != [] then m[key := v] else m - {key}
  }

  lemma HexOfBytes(h: Hex, key: Key)
    requires TermKey(h)
    ensures h == KeybytesToHex(key) <==> |h| % 2 == 1 && HexToKeybytes(h) == key
  {
    KeybytesRoundTrip(key);
    if |h| % 2 == 1 {
      HexBytesBack(h);
    } else {
      HexOdd(key);
    }
    hide KeybytesToHex;
    hide HexToKeybytes;
  }

  lemma HexOdd(key: Key)
    ensures |KeybytesToHex(key)| % 2 == 1
  {}

  lemma HexBytesBack(h: Hex)
    requires TermKey(h) && |h| % 2 == 1
    ensures KeybytesToHex(HexToKeybytes(h)) == h
  {
    UnpackPack(h[..|h| - 1]);
    assert h == h[..|h| - 1] + [TERM];
    hide Unpack;
    hide Pack;
  }

  lemma UpdateRepresents(t: Tree, m: Map, key: Key, v: Value)
    requires Represents(t, m)
    ensures Represents(Update(t, key, v), MapUpdate(m, key, v))
  {
    hide Canonical;
    hide Lookup;
    hide Insert;
    hide Delete;
    hide HexToKeybytes;
    var k := KeybytesToHex(key);
    if v != [] {
      InsertCanonical(t, k, v);
    } else {
      DeleteCanonical(t, k);
    }
    hide KeybytesToHex;
    hide HexKey;
    hide HasTerm;
    forall h | TermKey(h)
      ensures Lookup(Update(t, key, v), h) == MapGet(MapUpdate(m, key, v), h)
    {
      HexOfBytes(h, key);
      if v != [] {
        InsertLookup(t, k, v, h);
      } else {
        DeleteLookup(t, k, h);
      }
    }
  }

  lemma LookupKey(t: Tree, m: Map, key: Key)
    requires Represents(t, m)
    ensures Lookup(t, KeybytesToHex(key)) == if key in m then Some(m[key]) else None
  {
    HexOfBytes(KeybytesToHex(key), key);
  }

  /** One map, one tree. */
  lemma RepresentsUnique(a: Tree, b: Tree, m: Map)
    requires Represents(a, m) && Represents(b, m)
    ensures a == b
  {
    CanonicalUnique(a, b);
  }

  /** The tree built from nothing but the map, in some order of its keys. */
  ghost function FromScratch(m: Map): (t: Tree)
    decreases |m|
  {
    if m == map[] then Empty
    else
      var k :| k in m;
      Update(FromScratch(m - {k}), k, m[k])
  }

  lemma EmptyRepresents()
    ensures Represents(Empty, map[])
  {}

  lemma {:induction false} FromScratchRepresents(m: Map)
    requires forall k :: k in m ==> m[k] != []
    ensures Represents(FromScratch(m), m)
    decreases |m|
  {
    hide Represents;
    hide Update;
    if m == map[] {
      EmptyRepresents();
    } else {
      var k :| k in m && FromScratch(m) == Update(FromScratch(m - {k}), k, m[k]);
      FromScratchRepresents(m - {k});
      UpdateRepresents(FromScratch(m - {k}), m - {k}, k, m[k]);
      assert (m - {k})[k := m[k]] == m;
    }
  }

  // ---- runs ----

  datatype Op = Get(key: Key) | Put(key: Key, v: Value) | Del(key: Key) | Hash | Commit

  datatype State = State(root: Node, db: Db)

  function TreeStep(t: Tree, op: Op): (r: Tree) {
    match op
    case Put(k, v) => Update(t, k, v)
    case Del(k) => Update(t, k, [])
    case _ => t
  }

  function MapStep(m: Map, op: Op): (r: Map) {
    match op
    case Put(k, v) => MapUpdate(m, k, v)
    case Del(k) => MapUpdate(m, k, [])
    case _ => m
  }

  /** The trie as loaded and the database stand for t, and nothing is missing. */
  ghost predicate Good(w: World, st: State, t: Tree) {
    Stands(w, st.db, st.root, t, true) && Canonical(t) && Backed(w, st.db, st.root, t, true)
  }

  /** TryGet keeps what it loaded, unless a node was missing. */
  function GetStep(st: State, key: Key, ghost w: World, ghost t: Tree): (r: State)
    requires Stands(w, st.db, st.root, t, true)
  {
    var r := TryGet(st.db, st.root, KeybytesToHex(key), w, t, true);
    if r.Got? && r.resolved then State(r.node, st.db) else st
  }

  /** TryUpdate and TryDelete; a missing node leaves the trie as it was. */
  function UpdateStep(st: State, key: Key, v: Value, ghost w: World, ghost t: Tree): (r: State)
    requires Stands(w, st.db, st.root, t, true)
  {
    var k := KeybytesToHex(key);
    var e := if v != [] then InsertN(st.db, st.root, k, v, w, t, true) else DeleteN(st.db, st.root, k, w, t, true);
    if e.Edit? then State(e.node, st.db) else st
  }

  /** Hash and Commit: hashRoot, then the cached root is kept. */
  function HashStep(w: World, st: State, commit: bool): (r: (Hash, State)) {
    if st.root == Nil then (EmptyRoot(w), st)
    else
      var r := HashNode(w, st.root, st.db, commit, true);
      (if r.raw.RHash? then r.raw.h else ZeroHash(), State(r.cached, r.db))
  }

  function Step(w: World, st: State, op: Op, ghost t: Tree): (r: State)
    requires Stands(w, st.db, st.root, t, true)
  {
    match op
    case Get(k) => GetStep(st, k, w, t)
    case Put(k, v) => UpdateStep(st, k, v, w, t)
    case Del(k) => UpdateStep(st, k, [], w, t)
    case Hash => HashStep(w, st, false).1
    case Commit => HashStep(w, st, true).1
  }

  lemma GetGood(w: World, st: State, key: Key, t: Tree)
    requires Good(w, st, t)
    ensures Good(w, GetStep(st, key, w, t), t)
  {
    TryGetCorrect(st.db, st.root, KeybytesToHex(key), w, t, true);
    TryGetBacked(st.db, st.root, KeybytesToHex(key), w, t, true);
  }

  lemma UpdateGood(w: World, st: State, key: Key, v: Value, t: Tree)
    requires Good(w, st, t) && Covers(w, Update(t, key, v))
    ensures Good(w, UpdateStep(st, key, v, w, t), Update(t, key, v))
  {
    var k := KeybytesToHex(key);
    if v != [] {
      InsertCanonical(t, k, v);
      InsertCorrect(st.db, st.root, k, v, w, t, true);
      InsertBacked(st.db, st.root, k, v, w, t, true);
    } else {
      DeleteCanonical(t, k);
      DeleteCorrect(st.db, st.root, k, w, t, true);
      DeleteBacked(st.db, st.root, k, w, t, true);
    }
  }

  lemma HashGood(w: World, st: State, commit: bool, t: Tree)
    requires Good(w, st, t)
    ensures HashStep(w, st, commit).0 == RootHash(w, t)
    ensures Good(w, HashStep(w, st, commit).1, t)
    ensures !commit ==> HashStep(w, st, commit).1.db == st.db
    ensures commit && t != Empty ==> Stored(w, HashStep(w, st, commit).1.db, t)
  {
    if st.root != Nil {
      HashCorrect(w, st.root, t, st.db, commit, true);
    }
  }

  function RunTree(ops: seq<Op>): (t: Tree) {
    if ops == [] then Empty else TreeStep(RunTree(ops[..|ops| - 1]), ops[|ops| - 1])
  }

  function RunMap(ops: seq<Op>): (m: Map) {
    if ops == [] then map[] else MapStep(RunMap(ops[..|ops| - 1]), ops[|ops| - 1])
  }

  /** The blobs in play cover every trie the run goes through. */
  ghost predicate RunCovered(w: World, ops: seq<Op>) {
    w.Valid() && forall n :: 0 <= n <= |ops| ==> Covers(w, RunTree(ops[..n]))
  }

  /** The state after a run from the empty trie over an empty database. */
  ghost function Run(w: World, ops: seq<Op>): (st: State)
    requires RunCovered(w, ops)
    ensures Good(w, st, RunTree(ops))
  {
    if ops == [] then State(Nil, map[])
    else
      var p, op := ops[..|ops| - 1], ops[|ops| - 1];
      PrefixCovered(w, ops);
      var st := Run(w, p);
      StepGood(w, st, op, RunTree(p));
      Step(w, st, op, RunTree(p))
  }

  lemma PrefixCovered(w: World, ops: seq<Op>)
    requires RunCovered(w, ops) && ops != []
    ensures RunCovered(w, ops[..|ops| - 1]) && Covers(w, RunTree(ops))
  {
    var p := ops[..|ops| - 1];
    forall n | 0 <= n <= |p|
      ensures Covers(w, RunTree(p[..n]))
    {
      assert p[..n] == ops[..n];
    }
    assert ops[..|ops|] == ops;
  }

  lemma StepGood(w: World, st: State, op: Op, t: Tree)
    requires Good(w, st, t) && Covers(w, TreeStep(t, op))
    ensures Good(w, Step(w, st, op, t), TreeStep(t, op))
  {
    match op
    case Get(k) => GetGood(w, st, k, t);
    case Put(k, v) => UpdateGood(w, st, k, v, t);
    case Del(k) => UpdateGood(w, st, k, [], t);
    case Hash => HashGood(w, st, false, t);
    case Commit => HashGood(w, st, true, t);
  }

  lemma {:induction false} RunRepresents(ops: seq<Op>)
    ensures Represents(RunTree(ops), RunMap(ops))
    ensures forall k :: k in RunMap(ops) ==> RunMap(ops)[k] != []
  {
    if ops != [] {
      var p, op := ops[..|ops| - 1], ops[|ops| - 1];
      RunRepresents(p);
      match op
      case Put(k, v) => UpdateRepresents(RunTree(p), RunMap(p), k, v);
      case Del(k) => UpdateRepresents(RunTree(p), RunMap(p), k, []);
      case _ =>
    }
  }

  /** Reading after any run gives what the map holds, whichever parts are loaded. */
  lemma RunReads(w: World, ops: seq<Op>, key: Key)
    requires RunCovered(w, ops)
    ensures
      var st := Run(w, ops);
      var r := TryGet(st.db, st.root, KeybytesToHex(key), w, RunTree(ops), true);
      r.Got? && r.value == if key in RunMap(ops) then Some(RunMap(ops)[key]) else None
  {
    var st, t := Run(w, ops), RunTree(ops);
    TryGetBacked(st.db, st.root, KeybytesToHex(key), w, t, true);
    TryGetCorrect(st.db, st.root, KeybytesToHex(key), w, t, true);
    RunRepresents(ops);
    LookupKey(t, RunMap(ops), key);
  }

  /** Two runs that end in the same map end in the same trie. */
  lemma HistoryIndependent(a: seq<Op>, b: seq<Op>)
    requires RunMap(a) == RunMap(b)
    ensures RunTree(a) == RunTree(b)
  {
    RunRepresents(a);
    RunRepresents(b);
    RepresentsUnique(RunTree(a), RunTree(b), RunMap(a));
  }

  /** Cached hashes are never stale: the root hash is the one computed from scratch on the map. */
  lemma HashFromScratch(w: World, ops: seq<Op>, commit: bool)
    requires RunCovered(w, ops)
    ensures HashStep(w, Run(w, ops), commit).0 == RootHash(w, FromScratch(RunMap(ops)))
  {
    HashGood(w, Run(w, ops), commit, RunTree(ops));
    RunRepresents(ops);
    FromScratchRepresents(RunMap(ops));
    RepresentsUnique(RunTree(ops), FromScratch(RunMap(ops)), RunMap(ops));
  }

  /** New: the zero hash and the empty root open the empty trie, other roots must be in the database. */
  function Open(w: World, h: Hash, db: Db): (r: Option<State>) {
    if h == ZeroHash() || h == EmptyRoot(w) then Some(State(Nil, db))
    else
      var n := Resolve(db, h);
      if n.Some? then Some(State(n.value, db)) else None
  }

  /** A tree's hash is not mistaken for the empty root. */
  lemma NotEmptyRoot(w: World, t: Tree)
    requires w.Valid() && Inner(t) && Covers(w, t)
    ensures NodeHash(w, t) != EmptyRoot(w) && NodeHash(w, t) != ZeroHash()
  {
    assert Enc(w, t) in w.D;
    var it := ItemOf(w, t);
    PayloadBound(it);
    SplitEncode(it, []);
    assert Encode(it) + [] == Encode(it);
    assert Split([0x80]).Ok? && Split([0x80]).value.kind == KString;
  }

  lemma OpenGood(w: World, db: Db, t: Tree)
    requires w.Valid() && Sound(w, db) && Canonical(t) && Covers(w, t)
    requires t != Empty ==> Stored(w, db, t)
    ensures Open(w, RootHash(w, t), db).Some?
    ensures Good(w, Open(w, RootHash(w, t), db).value, t)
  {
    if t != Empty {
      NotEmptyRoot(w, t);
      ResolveBacked(w, db, NodeHash(w, t), t, true);
    }
  }

  /** Commit, then reopen the returned root on the same database: the same map is read. */
  lemma CommitReopen(w: World, ops: seq<Op>, key: Key)
    requires RunCovered(w, ops)
    ensures
      var (root, st) := HashStep(w, Run(w, ops), true);
      var re := Open(w, root, st.db);
      && re.Some? && Good(w, re.value, RunTree(ops))
      && var r := TryGet(st.db, re.value.root, KeybytesToHex(key), w, RunTree(ops), true);
         r.Got? && r.value == if key in RunMap(ops) then Some(RunMap(ops)[key]) else None
  {
    var t := RunTree(ops);
    var (root, st) := HashStep(w, Run(w, ops), true);
    HashGood(w, Run(w, ops), true, t);
    OpenGood(w, st.db, t);
    var re := Open(w, root, st.db).value;
    TryGetBacked(re.db, re.root, KeybytesToHex(key), w, t, true);
    TryGetCorrect(re.db, re.root, KeybytesToHex(key), w, t, true);
    RunRepresents(ops);
    LookupKey(t, RunMap(ops), key);
  }

  // ---- the object ----

  /**
   * A trie over a database that may lack nodes. `tree` is what it stands for; a node that
   * cannot be resolved is reported and changes nothing.
   */
  class Trie {
    const w: World
    var db: Db
    var root: Node
    ghost var tree: Tree

    ghost predicate Valid()
      reads this
    {
      Stands(w, db, root, tree, true) && Canonical(tree)
    }

    constructor (w: World, root: Node, db: Db, ghost t: Tree)
      requires Stands(w, db, root, t, true) && Canonical(t)
      ensures Valid() && tree == t && this.w == w && this.db == db && this.root == root
    {
      this.w, this.root, this.db, tree := w, root, db, t;
    }

    /** The value under the key; nodes loaded on the way are kept. */
    method TryGet(key: Key) returns (r: Result<Option<Value>, Hash>)
      requires Valid()
      modifies this`root
      ensures Valid()
      ensures r.Ok? ==> r.value == Lookup(tree, KeybytesToHex(key))
      ensures r.Err? ==> r.error !in db && root == old(root)
      ensures Backed(w, db, old(root), tree, true) ==> r.Ok? && Backed(w, db, root, tree, true)
    {
      var k := KeybytesToHex(key);
      TryGetCorrect(db, root, k, w, tree, true);
      if Backed(w, db, root, tree, true) {
        TryGetBacked(db, root, k, w, tree, true);
      }
      var g := TrieLazy.TryGet(db, root, k, w, tree, true);
      if g.MissingNode? {
        return Err(g.h);
      }
      if g.resolved {
        root := g.node;
      }
      return Ok(g.value);
    }

    /** Associates the key with the value, or removes it if the value is empty. */
    method TryUpdate(key: Key, v: Value) returns (missing: Option<Hash>)
      requires Valid() && Covers(w, Update(tree, key, v))
      modifies this`root, this`tree
      ensures Valid()
      ensures missing.None? ==> tree == Update(old(tree), key, v)
      ensures missing.Some? ==> missing.value !in db && root == old(root) && tree == old(tree)
      ensures Backed(w, db, old(root), old(tree), true) ==> missing.None? && Backed(w, db, root, tree, true)
    {
      var k := KeybytesToHex(key);
      ghost var t := tree;
      var e: Edit;
      if |v| != 0 {
        InsertCanonical(t, k, v);
        InsertCorrect(db, root, k, v, w, t, true);
        if Backed(w, db, root, t, true) {
          InsertBacked(db, root, k, v, w, t, true);
        }
        e := InsertN(db, root, k, v, w, t, true);
      } else {
        DeleteCanonical(t, k);
        DeleteCorrect(db, root, k, w, t, true);
        if Backed(w, db, root, t, true) {
          DeleteBacked(db, root, k, w, t, true);
        }
        e := DeleteN(db, root, k, w, t, true);
      }
      if e.Missed? {
        return Some(e.h);
      }
      root, tree := e.node, Update(t, key, v);
      return None;
    }

    /** Hash (commit = false) and Commit (commit = true). */
    method HashRoot(commit: bool) returns (h: Hash)
      requires Valid()
      modifies this`root, this`db
      ensures Valid() && h == RootHash(w, tree)
      ensures Grown(old(db), db) && (!commit ==> db == old(db))
      ensures Backed(w, old(db), old(root), tree, true) ==>
        Backed(w, db, root, tree, true) && (commit && tree != Empty ==> Stored(w, db, tree))
    {
      if root == Nil {
        return EmptyRoot(w);
      }
      HashCorrect(w, root, tree, db, commit, true);
      var r := HashNode(w, root, db, commit, true);
      root, db := r.cached, r.db;
      return r.raw.h;
    }
  }

  /** New: the zero hash and the empty root give the empty trie; any other root must be in the database. */
  method NewTrie(w: World, h: Hash, db: Db, ghost t: Tree) returns (r: Result<Trie, Hash>)
    requires w.Valid() && Sound(w, db) && Canonical(t) && Covers(w, t)
    requires h == RootHash(w, t) || (h == ZeroHash() && t == Empty)
    ensures r.Err? <==> t != Empty && h !in db
    ensures r.Ok? ==> fresh(r.value) && r.value.Valid() && r.value.tree == t && r.value.db == db && r.value.w == w
    ensures r.Ok? && (t != Empty ==> Stored(w, db, t)) ==> Backed(w, db, r.value.root, t, true)
  {
    if t != Empty {
      NotEmptyRoot(w, t);
    }
    if h == ZeroHash() || h == EmptyRoot(w) {
      var trie := new Trie(w, Nil, db, Empty);
      return Ok(trie);
    }
    if h !in db {
      return Err(h);
    }
    ResolveStands(w, db, h, t, true);
    if Stored(w, db, t) {
      BackedShallow(w, db, t, Some(h), true);
    }
    var trie := new Trie(w, Resolve(db, h).value, db, t);
    return Ok(trie);
  }

  /** A run on the object: it goes through the same tries, and nothing is ever missing. */
  method RunTrie(w: World, ops: seq<Op>) returns (trie: Trie)
    requires RunCovered(w, ops)
    ensures fresh(trie) && trie.Valid() && trie.w == w && trie.tree == RunTree(ops)
    ensures Backed(w, trie.db, trie.root, trie.tree, true)
  {
    hide Backed;
    hide Covers;
    hide Canonical;
    hide RunTree;
    hide Update;
    RunStart(w, ops);
    trie := new Trie(w, Nil, map[], Empty);
    for i := 0 to |ops|
      invariant fresh(trie) && trie.Valid() && trie.w == w && trie.tree == RunTree(ops[..i])
      invariant Backed(w, trie.db, trie.root, trie.tree, true)
    {
      RunNext(w, ops, i);
      match ops[i]
      case Get(k) => var _ := trie.TryGet(k);
      case Put(k, v) => var _ := trie.TryUpdate(k, v);
      case Del(k) => var _ := trie.TryUpdate(k, []);
      case Hash => var _ := trie.HashRoot(false);
      case Commit => var _ := trie.HashRoot(true);
    }
    assert ops[..|ops|] == ops;
  }

  lemma RunStart(w: World, ops: seq<Op>)
    requires RunCovered(w, ops)
    ensures RunTree(ops[..0]) == Empty && Stands(w, map[], Nil, Empty, true) && Canonical(Empty)
    ensures Backed(w, map[], Nil, Empty, true)
  {}

  lemma RunNext(w: World, ops: seq<Op>, i: nat)
    requires RunCovered(w, ops) && i < |ops|
    ensures RunTree(ops[..i + 1]) == TreeStep(RunTree(ops[..i]), ops[i])
    ensures Covers(w, TreeStep(RunTree(ops[..i]), ops[i]))
  {
    assert ops[..i + 1][..i] == ops[..i];
  }
}
