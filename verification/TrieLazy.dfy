/**
 * What an in-memory node stands for, and tryGet, insert and delete of proton/trie/trie.go on
 * nodes whose subtrees may still be hashes into the database.
 */
module TrieLazy {
  import opened Bytes
  import opened TrieEncoding
  import opened TrieTree
  import opened TrieNode

  type Db = map<Hash, seq<byte>>

  /** Every entry is stored under its hash. */
  ghost predicate Sound(w: World, db: Db) {
    forall h :: h in db ==> db[h] in w.D && w.H(db[h]) == h
  }

  /** All node encodings of the tree are blobs in play. */
  ghost predicate Covers(w: World, t: Tree) {
    match t
    case Ext(_, c) => Enc(w, t) in w.D && Covers(w, c)
    case Branch(subs) => Enc(w, t) in w.D && forall i :: 0 <= i < |subs| ==> Covers(w, subs[i])
    case _ => true
  }

  lemma CoversEnc(w: World, t: Tree)
    requires Covers(w, t) && Inner(t)
    ensures Enc(w, t) in w.D
  {}

  /** A cached hash is the node's own, and below the root only nodes of 32 bytes and more have one. */
  ghost predicate FlagOk(w: World, flag: Flag, t: Tree, root: bool) {
    flag.hash.Some? ==> flag.hash.value == NodeHash(w, t) && (root || Large(w, t))
  }

  /** The node n stands for the tree t. */
  ghost predicate Rep(w: World, n: Node, t: Tree, root: bool)
    decreases t, n
  {
    match n
    case Nil => t == Empty
    case Val(v) => t == Leaf(v)
    case HashN(h) => Inner(t) && h == NodeHash(w, t) && (root || Large(w, t))
    case Short(k, val, flag) => t.Ext? && t.key == k && Rep(w, val, t.sub, false) && FlagOk(w, flag, t, root)
    case Full(children, flag) =>
      && t.Branch? && |children| == |t.subs| && FlagOk(w, flag, t, root)
      && forall i :: 0 <= i < |children| ==> Rep(w, children[i], t.subs[i], false)
  }

  ghost predicate Stands(w: World, db: Db, n: Node, t: Tree, root: bool) {
    w.Valid() && Sound(w, db) && Rep(w, n, t, root) && Covers(w, t) && Minimal(t)
  }

  // ---- a node stands for one tree only ----

  lemma {:induction false} EncInjective(w: World, a: Tree, b: Tree)
    requires w.Valid() && Canonical(a) && Canonical(b) && Inner(a) && Inner(b) && Covers(w, a) && Covers(w, b)
    requires Enc(w, a) == Enc(w, b)
    ensures a == b
    decreases a, 2
  {
    hide Enc;
    hide DecodeNode;
    hide Shallow;
    DecodeEnc(w, a, None);
    DecodeEnc(w, b, None);
    ShallowInjective(w, a, b, None);
  }

  lemma HashInjective(w: World, a: Tree, b: Tree)
    requires w.Valid() && Canonical(a) && Canonical(b) && Inner(a) && Inner(b) && Covers(w, a) && Covers(w, b)
    requires NodeHash(w, a) == NodeHash(w, b)
    ensures a == b
    decreases a, 3
  {
    EncInjective(w, a, b);
  }

  lemma {:induction false} ShallowInjective(w: World, a: Tree, b: Tree, h: Option<Hash>)
    requires w.Valid() && Canonical(a) && Canonical(b) && Inner(a) && Inner(b) && Covers(w, a) && Covers(w, b)
    requires Shallow(w, a, h) == Shallow(w, b, h)
    ensures a == b
    decreases a, 1
  {
    if a.Ext? {
      assert b.Ext?;
      RefInjective(w, a.sub, b.sub);
    } else {
      assert b.Branch?;
      forall i | 0 <= i < 17
        ensures a.subs[i] == b.subs[i]
      {
        assert RefNodes(w, a.subs)[i] == RefNodes(w, b.subs)[i];
        RefInjective(w, a.subs[i], b.subs[i]);
      }
    }
  }

  lemma {:induction false} RefInjective(w: World, a: Tree, b: Tree)
    requires w.Valid() && Minimal(a) && Minimal(b) && Covers(w, a) && Covers(w, b)
    requires RefNode(w, a) == RefNode(w, b)
    ensures a == b
    decreases a, 4
  {
    if Inner(a) && Inner(b) {
      if Large(w, a) && Large(w, b) {
        HashInjective(w, a, b);
      } else if !Large(w, a) && !Large(w, b) {
        ShallowInjective(w, a, b, None);
      }
    }
  }

  lemma {:induction false} RepUnique(w: World, n: Node, a: Tree, b: Tree, root: bool)
    requires w.Valid() && Minimal(a) && Minimal(b) && Covers(w, a) && Covers(w, b)
    requires Rep(w, n, a, root) && Rep(w, n, b, root)
    ensures a == b
    decreases a, n
  {
    match n
    case HashN(_) => HashInjective(w, a, b);
    case Short(_, val, _) => RepUnique(w, val, a.sub, b.sub, false);
    case Full(children, _) =>
      forall i | 0 <= i < |children|
        ensures a.subs[i] == b.subs[i]
      {
        RepUnique(w, children[i], a.subs[i], b.subs[i], false);
      }
      assert a.subs == b.subs;
    case _ =>
  }

  // ---- following a hash ----

  /** resolveHash: the stored node, or nothing if the database does not have it. */
  function Resolve(db: Db, h: Hash): (r: Option<Node>) {
    if h in db then
      var n := DecodeNode(Some(h), db[h]);
      if n.Ok? then Some(n.value) else None
    else None
  }

  /** A decoded node stands for the tree it was encoded from. */
  lemma {:induction false} RepShallow(w: World, t: Tree, hash: Option<Hash>, root: bool)
    requires Canonical(t) && Inner(t) && FlagOk(w, Flag(hash, false), t, root)
    ensures Rep(w, Shallow(w, t, hash), t, root)
    decreases t, 0
  {
    if t.Ext? {
      RepRef(w, t.sub);
    } else {
      forall i | 0 <= i < 17
        ensures Rep(w, RefNode(w, t.subs[i]), t.subs[i], false)
      {
        RepRef(w, t.subs[i]);
      }
    }
  }

  lemma {:induction false} RepRef(w: World, t: Tree)
    requires Minimal(t)
    ensures Rep(w, RefNode(w, t), t, false)
    decreases t, 1
  {
    if Inner(t) && !Large(w, t) {
      RepShallow(w, t, None, false);
    }
  }

  /** What a hash node resolves to. */
  lemma ResolveStands(w: World, db: Db, h: Hash, t: Tree, root: bool)
    requires Stands(w, db, HashN(h), t, root) && h in db
    ensures Inner(t) && Resolve(db, h) == Some(Shallow(w, t, Some(h)))
    ensures Stands(w, db, Shallow(w, t, Some(h)), t, root)
    ensures Shallow(w, t, Some(h)).Short? || Shallow(w, t, Some(h)).Full?
  {
    assert Enc(w, t) in w.D;
    DecodeEnc(w, t, Some(h));
    RepShallow(w, t, Some(h), root);
  }

  lemma StandsShort(w: World, db: Db, n: Node, t: Tree, root: bool)
    requires Stands(w, db, n, t, root) && n.Short?
    ensures t.Ext? && t.key == n.key && Canonical(t) && Stands(w, db, n.val, t.sub, false) && FlagOk(w, n.flag, t, root)
  {}

  lemma StandsFull(w: World, db: Db, n: Node, t: Tree, root: bool, i: nat)
    requires Stands(w, db, n, t, root) && n.Full? && i < 17
    ensures t.Branch? && Canonical(t) && |t.subs| == |n.children| == 17
    ensures Stands(w, db, n.children[i], t.subs[i], false) && FlagOk(w, n.flag, t, root)
    ensures RepAll(w, n.children, t.subs)
  {}

  const NEW_FLAG: Flag := Flag(None, true)

  // ---- tryGet ----

  datatype Got = MissingNode(h: Hash) | Got(value: Option<seq<byte>>, node: Node, resolved: bool)

  /** tryGet. An index outside a full node's children, a panic in the source, is read as absent. */
  function TryGet(db: Db, n: Node, key: Hex, ghost w: World, ghost t: Tree, ghost root: bool): (r: Got)
    requires Stands(w, db, n, t, root)
    decreases t, if n.HashN? then 1 else 0
  {
    match n
    case Nil => Got(None, n, false)
    case Val(v) => Got(Some(v), n, false)
    case Short(k, val, flag) =>
      if !(k <= key) then Got(None, n, false)
      else
        var r := TryGet(db, val, key[|k|..], w, t.sub, false);
        if r.MissingNode? then r
        else Got(r.value, if r.resolved then Short(k, r.node, flag) else n, r.resolved)
    case Full(children, flag) =>
      if key == [] || key[0] >= |children| then Got(None, n, false)
      else
        var r := TryGet(db, children[key[0]], key[1..], w, t.subs[key[0]], false);
        if r.MissingNode? then r
        else Got(r.value, if r.resolved then Full(children[key[0] := r.node], flag) else n, r.resolved)
    case HashN(h) =>
      if h !in db then MissingNode(h)
      else
        ResolveStands(w, db, h, t, root);
        var r := TryGet(db, Resolve(db, h).value, key, w, t, root);
        if r.MissingNode? then r else Got(r.value, r.node, true)
  }

  /** Children of a full node, one by one. */
  ghost predicate RepAll(w: World, children: seq<Node>, subs: seq<Tree>) {
    |children| == |subs| && forall i :: 0 <= i < |children| ==> Rep(w, children[i], subs[i], false)
  }

  lemma RepSet(w: World, children: seq<Node>, subs: seq<Tree>, i: nat, n: Node, t: Tree)
    requires RepAll(w, children, subs) && i < |subs| && Rep(w, n, t, false)
    ensures RepAll(w, children[i := n], subs[i := t])
  {
    hide Rep;
  }

  lemma RepFull(w: World, children: seq<Node>, subs: seq<Tree>, flag: Flag, root: bool)
    requires FlagOk(w, flag, Branch(subs), root)
    ensures Rep(w, Full(children, flag), Branch(subs), root) <==> RepAll(w, children, subs)
  {}

  /** Reading agrees with the tree, and the node with its newly loaded parts stands for the same tree. */
  lemma {:induction false} TryGetCorrect(db: Db, n: Node, key: Hex, w: World, t: Tree, root: bool)
    requires Stands(w, db, n, t, root)
    ensures TryGetOk(db, n, key, w, t, root)
    decreases t, if n.HashN? then 1 else 0
  {
    match n
    case Short(_, _, _) => TryGetShort(db, n, key, w, t, root);
    case Full(_, _) => TryGetFull(db, n, key, w, t, root);
    case HashN(h) =>
      if h in db {
        ResolveStands(w, db, h, t, root);
        hide Stands;
        TryGetCorrect(db, Resolve(db, h).value, key, w, t, root);
        hide Rep;
      }
    case _ =>
  }

  ghost predicate TryGetOk(db: Db, n: Node, key: Hex, w: World, t: Tree, root: bool)
    requires Stands(w, db, n, t, root)
  {
    var r := TryGet(db, n, key, w, t, root);
    && (r.MissingNode? ==> r.h !in db)
    && (r.Got? ==> r.value == Lookup(t, key) && Rep(w, r.node, t, root))
  }

  lemma {:induction false} TryGetShort(db: Db, n: Node, key: Hex, w: World, t: Tree, root: bool)
    requires n.Short? && Stands(w, db, n, t, root)
    ensures TryGetOk(db, n, key, w, t, root)
    decreases t, -1
  {
    hide Covers;
    hide Enc;
    hide DecodeNode;
    hide Sound;
    StandsShort(w, db, n, t, root);
    hide Stands;
    hide FlagOk;
    if n.key <= key {
      TryGetCorrect(db, n.val, key[|n.key|..], w, t.sub, false);
    }
  }

  lemma {:induction false} TryGetFull(db: Db, n: Node, key: Hex, w: World, t: Tree, root: bool)
    requires n.Full? && Stands(w, db, n, t, root)
    ensures TryGetOk(db, n, key, w, t, root)
    decreases t, -1
  {
    hide Covers;
    hide Enc;
    hide DecodeNode;
    hide Sound;
    var i := if key == [] || key[0] >= 17 then 0 else key[0];
    StandsFull(w, db, n, t, root, i);
    hide Stands;
    hide FlagOk;
    if key != [] && key[0] < 17 {
      TryGetCorrect(db, n.children[i], key[1..], w, t.subs[i], false);
      var r := TryGet(db, n.children[i], key[1..], w, t.subs[i], false);
      if r.Got? {
        RepSet(w, n.children, t.subs, i, r.node, t.subs[i]);
        assert t.subs[i := t.subs[i]] == t.subs;
        RepFull(w, n.children[i := r.node], t.subs, n.flag, root);
      }
    }
    assert t == Branch(t.subs);
    RepFull(w, n.children, t.subs, n.flag, root);
    hide Rep;
  }

  // ---- insert ----

  datatype Edit = Missed(h: Hash) | Edit(dirty: bool, node: Node)

  /** insert(nil, key, n): n under a short node, or n itself where no key is left. */
  function UnderN(key: Hex, n: Node): (r: Node) {
    if key == [] then n else Short(key, n, NEW_FLAG)
  }

  function NilChildren(): (cs: seq<Node>)
    ensures |cs| == 17 && forall i :: 0 <= i < 17 ==> cs[i] == Nil
  {
    seq(17, _ => Nil)
  }

  function ForkN(k: Hex, val: Node, key: Hex, v: seq<byte>, m: nat): (r: Node)
    requires m < |k| && m < |key|
  {
    var cs := Put(Put(NilChildren(), k[m], UnderN(k[m + 1..], val)), key[m], UnderN(key[m + 1..], Val(v)));
    if m == 0 then Full(cs, NEW_FLAG) else Short(key[..m], Full(cs, NEW_FLAG), NEW_FLAG)
  }

  /** insert. Fallbacks that return the node unchanged stand for the source's panics. */
  function InsertN(db: Db, n: Node, key: Hex, v: seq<byte>, ghost w: World, ghost t: Tree, ghost root: bool): (r: Edit)
    requires Stands(w, db, n, t, root)
    decreases t, if n.HashN? then 1 else 0
  {
    if key == [] then Edit(if n.Val? then n.v != v else true, Val(v))
    else
      match n
      case Nil => Edit(true, Short(key, Val(v), NEW_FLAG))
      case Val(_) => Edit(false, n)
      case Short(k, val, _) =>
        var m := PrefixLen(key, k);
        if m == |k| then
          var r := InsertN(db, val, key[m..], v, w, t.sub, false);
          if r.Missed? then r
          else if !r.dirty then Edit(false, n)
          else Edit(true, Short(k, r.node, NEW_FLAG))
        else if m < |key| then Edit(true, ForkN(k, val, key, v, m))
        else Edit(false, n)
      case Full(children, _) =>
        if key[0] >= |children| then Edit(false, n)
        else
          var r := InsertN(db, children[key[0]], key[1..], v, w, t.subs[key[0]], false);
          if r.Missed? then r
          else if !r.dirty then Edit(false, n)
          else Edit(true, Full(children[key[0] := r.node], NEW_FLAG))
      case HashN(h) =>
        if h !in db then Missed(h)
        else
          ResolveStands(w, db, h, t, root);
          var rn := Resolve(db, h).value;
          var r := InsertN(db, rn, key, v, w, t, root);
          if r.Missed? then r
          else if !r.dirty then Edit(false, rn)
          else r
  }

  lemma RepUnder(w: World, key: Hex, n: Node, t: Tree)
    requires Rep(w, n, t, false)
    ensures Rep(w, UnderN(key, n), Under(key, t), false)
  {}

  lemma RepFork(w: World, k: Hex, val: Node, c: Tree, key: Hex, v: seq<byte>, m: nat, root: bool)
    requires m < |k| && m < |key| && Rep(w, val, c, false)
    ensures Rep(w, ForkN(k, val, key, v, m), Fork(k, c, key, v, m), root)
  {
    RepUnder(w, k[m + 1..], val, c);
    RepUnder(w, key[m + 1..], Val(v), Leaf(v));
    var a, ta := UnderN(k[m + 1..], val), Under(k[m + 1..], c);
    var b, tb := UnderN(key[m + 1..], Val(v)), Under(key[m + 1..], Leaf(v));
    hide Under;
    hide UnderN;
    var cs, subs := NilChildren(), NoSubs();
    assert RepAll(w, cs, subs);
    var cs1, subs1 := Put(cs, k[m], a), Put(subs, k[m], ta);
    if k[m] < 17 {
      RepSet(w, cs, subs, k[m], a, ta);
    }
    assert RepAll(w, cs1, subs1);
    if key[m] < 17 {
      RepSet(w, cs1, subs1, key[m], b, tb);
    }
    RepFull(w, Put(cs1, key[m], b), Put(subs1, key[m], tb), NEW_FLAG, true);
    RepFull(w, Put(cs1, key[m], b), Put(subs1, key[m], tb), NEW_FLAG, false);
  }

  /** What insert promises: an unresolvable hash, or a node for the updated tree and whether it changed. */
  ghost predicate InsertOk(db: Db, n: Node, key: Hex, v: seq<byte>, w: World, t: Tree, root: bool)
    requires Stands(w, db, n, t, root)
  {
    var r := InsertN(db, n, key, v, w, t, root);
    && (r.Missed? ==> r.h !in db)
    && (r.Edit? ==>
        && Rep(w, r.node, Insert(t, key, v), root)
        && (r.dirty <==> Lookup(t, key) != Some(v))
        && (!r.dirty ==> Insert(t, key, v) == t))
  }

  lemma {:induction false} InsertCorrect(db: Db, n: Node, key: Hex, v: seq<byte>, w: World, t: Tree, root: bool)
    requires Stands(w, db, n, t, root) && At(t, key)
    ensures InsertOk(db, n, key, v, w, t, root)
    decreases t, if n.HashN? then 1 else 0
  {
    hide Covers;
    hide Enc;
    hide DecodeNode;
    hide Sound;
    if key != [] {
      match n
      case Nil => assert Rep(w, Val(v), Leaf(v), false);
      case Val(_) =>
      case Short(k, _, _) =>
        if PrefixLen(key, k) == |k| {
          InsertDown(db, n, key, v, w, t, root);
        } else {
          InsertAside(db, n, key, v, w, t, root);
        }
      case Full(_, _) => InsertFull(db, n, key, v, w, t, root);
      case HashN(h) =>
        if h in db {
          ResolveStands(w, db, h, t, root);
          hide Stands;
          InsertCorrect(db, Resolve(db, h).value, key, v, w, t, root);
          hide Rep;
        }
    }
  }

  lemma {:induction false} InsertDown(db: Db, n: Node, key: Hex, v: seq<byte>, w: World, t: Tree, root: bool)
    requires n.Short? && Stands(w, db, n, t, root) && At(t, key) && key != [] && PrefixLen(key, n.key) == |n.key|
    ensures InsertOk(db, n, key, v, w, t, root)
    decreases t, -1
  {
    hide Covers;
    hide Enc;
    hide DecodeNode;
    hide Sound;
    hide PrefixLen;
    hide Fork;
    hide ForkN;
    StandsShort(w, db, n, t, root);
    hide Stands;
    DescendAt(n.key, t.sub, key);
    hide Canonical;
    InsertCorrect(db, n.val, key[|n.key|..], v, w, t.sub, false);
  }

  lemma InsertAside(db: Db, n: Node, key: Hex, v: seq<byte>, w: World, t: Tree, root: bool)
    requires n.Short? && Stands(w, db, n, t, root) && At(t, key) && key != [] && PrefixLen(key, n.key) < |n.key|
    ensures InsertOk(db, n, key, v, w, t, root)
  {
    hide Covers;
    hide Enc;
    hide DecodeNode;
    hide Sound;
    hide PrefixLen;
    hide Fork;
    hide ForkN;
    StandsShort(w, db, n, t, root);
    hide Stands;
    DescendAt(n.key, t.sub, key);
    hide Canonical;
    RepFork(w, n.key, n.val, t.sub, key, v, PrefixLen(key, n.key), root);
  }

  lemma {:induction false} InsertFull(db: Db, n: Node, key: Hex, v: seq<byte>, w: World, t: Tree, root: bool)
    requires n.Full? && Stands(w, db, n, t, root) && At(t, key) && key != []
    ensures InsertOk(db, n, key, v, w, t, root)
    decreases t, -1
  {
    hide Covers;
    hide Enc;
    hide DecodeNode;
    hide Sound;
    var i := key[0];
    StandsFull(w, db, n, t, root, i);
    hide Stands;
    BranchAt(t.subs, key);
    InsertCorrect(db, n.children[i], key[1..], v, w, t.subs[i], false);
    var r := InsertN(db, n.children[i], key[1..], v, w, t.subs[i], false);
    RepFull(w, n.children, t.subs, n.flag, root);
    assert t == Branch(t.subs) && n == Full(n.children, n.flag);
    if r.Edit? && r.dirty {
      var nt := Insert(t.subs[i], key[1..], v);
      RepSet(w, n.children, t.subs, i, r.node, nt);
      RepFull(w, n.children[i := r.node], t.subs[i := nt], NEW_FLAG, root);
    } else {
      assert t.subs[i := t.subs[i]] == t.subs;
    }
    hide Rep;
  }

  // ---- delete ----

  function PresentN(cs: seq<Node>): (p: seq<bool>)
    ensures |p| == |cs| && forall i :: 0 <= i < |p| ==> p[i] == (cs[i] != Nil)
  {
    seq(|cs|, i requires 0 <= i < |cs| => cs[i] != Nil)
  }

  /** A short node over a child that may itself be short. */
  function MergeN(k: Hex, child: Node): (r: Node) {
    if child.Short? then Short(k + child.key, child.val, NEW_FLAG) else Short(k, child, NEW_FLAG)
  }

  /** Reduces a full node with one child left. */
  function ShrinkN(db: Db, cs: seq<Node>): (r: Edit) {
    var pos := Sole(PresentN(cs));
    if pos >= 0 then SingleN(db, pos % 256, cs[pos]) else Edit(true, Full(cs, NEW_FLAG))
  }

  /** The only child left is loaded to see whether it is short; if it is not, the hash stays. */
  function SingleN(db: Db, pos: byte, c: Node): (r: Edit) {
    if pos == 16 then Edit(true, Short([pos], c, NEW_FLAG))
    else if c.HashN? then
      var rn := Resolve(db, c.h);
      if rn.None? then Missed(c.h)
      else if rn.value.Short? then Edit(true, MergeN([pos], rn.value))
      else Edit(true, Short([pos], c, NEW_FLAG))
    else Edit(true, MergeN([pos], c))
  }

  function DeleteN(db: Db, n: Node, key: Hex, ghost w: World, ghost t: Tree, ghost root: bool): (r: Edit)
    requires Stands(w, db, n, t, root)
    decreases t, if n.HashN? then 1 else 0
  {
    match n
    case Nil => Edit(false, Nil)
    case Val(_) => Edit(true, Nil)
    case Short(k, val, _) =>
      var m := PrefixLen(key, k);
      if m < |k| then Edit(false, n)
      else if m == |key| then Edit(true, Nil)
      else
        StandsShort(w, db, n, t, root);
        var r := DeleteN(db, val, key[m..], w, t.sub, false);
        if r.Missed? then r
        else if !r.dirty then Edit(false, n)
        else Edit(true, MergeN(k, r.node))
    case Full(children, _) =>
      if key == [] || key[0] >= |children| then Edit(false, n)
      else
        StandsFull(w, db, n, t, root, key[0]);
        var r := DeleteN(db, children[key[0]], key[1..], w, t.subs[key[0]], false);
        if r.Missed? then r
        else if !r.dirty then Edit(false, n)
        else ShrinkN(db, children[key[0] := r.node])
    case HashN(h) =>
      if h !in db then Missed(h)
      else
        ResolveStands(w, db, h, t, root);
        var rn := Resolve(db, h).value;
        var r := DeleteN(db, rn, key, w, t, root);
        if r.Missed? then r
        else if !r.dirty then Edit(false, rn)
        else r
  }

  /** What delete promises. A changed node is never an unresolved hash: the caller looks at its kind. */
  ghost predicate DeleteOk(db: Db, n: Node, key: Hex, w: World, t: Tree, root: bool)
    requires Stands(w, db, n, t, root)
  {
    var r := DeleteN(db, n, key, w, t, root);
    && (r.Missed? ==> r.h !in db)
    && (r.Edit? ==>
        && Rep(w, r.node, Delete(t, key), root)
        && (r.dirty <==> Lookup(t, key).Some?)
        && (r.dirty ==> !r.node.HashN?)
        && (!r.dirty ==> Delete(t, key) == t))
  }

  lemma RepMerge(w: World, k: Hex, child: Node, t: Tree, root: bool)
    requires Rep(w, child, t, false) && !child.HashN?
    ensures Rep(w, MergeN(k, child), Merge(k, t), root) && !MergeN(k, child).HashN?
  {}

  lemma {:induction false} DeleteCorrect(db: Db, n: Node, key: Hex, w: World, t: Tree, root: bool)
    requires Stands(w, db, n, t, root) && At(t, key)
    ensures DeleteOk(db, n, key, w, t, root)
    decreases t, if n.HashN? then 1 else 0
  {
    hide Covers;
    hide Enc;
    hide DecodeNode;
    hide Sound;
    match n
    case Short(_, _, _) => DeleteShort(db, n, key, w, t, root);
    case Full(_, _) => DeleteFull(db, n, key, w, t, root);
    case HashN(h) =>
      if h in db {
        ResolveStands(w, db, h, t, root);
        hide Stands;
        DeleteCorrect(db, Resolve(db, h).value, key, w, t, root);
        hide Rep;
      }
    case _ =>
  }

  lemma {:induction false} DeleteShort(db: Db, n: Node, key: Hex, w: World, t: Tree, root: bool)
    requires n.Short? && Stands(w, db, n, t, root) && At(t, key)
    ensures DeleteOk(db, n, key, w, t, root)
    decreases t, -1
  {
    hide Covers;
    hide Enc;
    hide DecodeNode;
    hide Sound;
    hide PrefixLen;
    hide Merge;
    hide MergeN;
    StandsShort(w, db, n, t, root);
    hide Stands;
    var k, m := n.key, PrefixLen(key, n.key);
    DescendAt(k, t.sub, key);
    DeleteAbsent(t, key);
    assert Rep(w, n, t, root) && Rep(w, Nil, Empty, root);
    if m == |k| < |key| {
      DeleteCorrect(db, n.val, key[m..], w, t.sub, false);
      var r := DeleteN(db, n.val, key[m..], w, t.sub, false);
      if r.Edit? && r.dirty {
        RepMerge(w, k, r.node, Delete(t.sub, key[m..]), root);
      }
      DeleteAbsent(t.sub, key[m..]);
    }
    hide Canonical;
    hide Rep;
  }

  lemma {:induction false} DeleteFull(db: Db, n: Node, key: Hex, w: World, t: Tree, root: bool)
    requires n.Full? && Stands(w, db, n, t, root) && At(t, key)
    ensures DeleteOk(db, n, key, w, t, root)
    decreases t, -1
  {
    hide Covers;
    hide Enc;
    hide DecodeNode;
    hide Sound;
    hide Shrink;
    hide ShrinkN;
    var i := key[0];
    StandsFull(w, db, n, t, root, i);
    BranchAt(t.subs, key);
    var r := DeleteN(db, n.children[i], key[1..], w, t.subs[i], false);
    var nt := Delete(t.subs[i], key[1..]);
    DeleteCorrect(db, n.children[i], key[1..], w, t.subs[i], false);
    if r.Edit? && r.dirty {
      RepSet(w, n.children, t.subs, i, r.node, nt);
      ShrinkCorrect(w, db, n.children, t.subs, i, r.node, nt, root);
    }
    hide Stands;
    DeleteAbsent(t.subs[i], key[1..]);
    hide Canonical;
    RepFull(w, n.children, t.subs, n.flag, root);
    assert t == Branch(t.subs) && n == Full(n.children, n.flag);
    hide Rep;
    hide RepAll;
  }

  /** Shrinking the node and shrinking the tree go hand in hand. */
  lemma ShrinkCorrect(w: World, db: Db, cs: seq<Node>, subs: seq<Tree>, i: nat, n: Node, t: Tree, root: bool)
    requires w.Valid() && Sound(w, db) && Canonical(Branch(subs)) && Covers(w, Branch(subs))
    requires RepAll(w, cs, subs) && i < 17 && RepAll(w, cs[i := n], subs[i := t])
    ensures EditOk(db, ShrinkN(db, cs[i := n]), w, Shrink(subs[i := t]), root)
  {
    hide Covers;
    hide Enc;
    hide Sound;
    hide Rep;
    assert |subs| == 17 && TwoPresent(subs);
    hide Canonical;
    var cs', subs' := cs[i := n], subs[i := t];
    SamePresent(w, cs', subs');
    var pos := Sole(Present(subs'));
    hide Sole;
    hide Single;
    hide SingleN;
    if pos >= 0 {
      OtherLeft(subs, i, subs', pos);
      SingleCorrect(w, db, cs, subs, pos, root);
    } else {
      RepFull(w, cs', subs', NEW_FLAG, root);
    }
  }

  lemma SamePresent(w: World, cs: seq<Node>, subs: seq<Tree>)
    requires RepAll(w, cs, subs)
    ensures PresentN(cs) == Present(subs)
  {}

  /** A changed node that stands for t, or a hash the database does not have. */
  ghost predicate EditOk(db: Db, r: Edit, w: World, t: Tree, root: bool) {
    if r.Missed? then r.h !in db else r.dirty && !r.node.HashN? && Rep(w, r.node, t, root)
  }

  /** Loading the last child and merging with it. */
  lemma SingleCorrect(w: World, db: Db, cs: seq<Node>, subs: seq<Tree>, pos: byte, root: bool)
    requires w.Valid() && Sound(w, db) && Canonical(Branch(subs)) && Covers(w, Branch(subs))
    requires RepAll(w, cs, subs) && pos < 17
    ensures EditOk(db, SingleN(db, pos, cs[pos]), w, Single(pos, subs[pos]), root)
  {
    var c, s := cs[pos], subs[pos];
    assert Stands(w, db, c, s, false);
    assert Rep(w, Short([pos], c, NEW_FLAG), Ext([pos], s), root);
    hide Covers;
    if pos < 16 && c.HashN? {
      if c.h in db {
        ResolveStands(w, db, c.h, s, false);
        var rn := Resolve(db, c.h).value;
        hide Resolve;
        RepMerge(w, [pos], rn, s, root);
        assert !rn.Short? ==> Merge([pos], s) == Ext([pos], s);
      }
    } else if pos < 16 {
      RepMerge(w, [pos], c, s, root);
    }
  }

  /** The single child that is left is not the one that changed. */
  lemma OtherLeft(subs: seq<Tree>, i: nat, subs': seq<Tree>, pos: nat)
    requires TwoPresent(subs) && i < |subs| && pos < |subs| && |subs'| == |subs|
    requires forall j :: 0 <= j < |subs| && j != i ==> subs'[j] == subs[j]
    requires forall j :: 0 <= j < |subs| && j != pos ==> subs'[j] == Empty
    ensures pos != i
  {
    var a, b :| 0 <= a < b < |subs| && subs[a] != Empty && subs[b] != Empty;
    assert a != i ==> subs'[a] != Empty;
    assert b != i ==> subs'[b] != Empty;
  }
}
