/** With everything unloaded or clean in the database, no operation misses a node. */
module TrieBacked {
  import opened Bytes
  import opened TrieEncoding
  import opened TrieTree
  import opened TrieNode
  import opened TrieLazy
  import opened TrieHasher

  lemma {:induction false} BackedShallow(w: World, db: Db, t: Tree, hash: Option<Hash>, root: bool)
    requires Canonical(t) && Inner(t) && Held(w, db, t, root)
    ensures Backed(w, db, Shallow(w, t, hash), t, root)
    decreases t, 0
  {
    assert Below(w, db, t);
    hide Enc;
    if t.Ext? {
      BackedRef(w, db, t.sub);
    } else {
      assert forall i :: 0 <= i < |t.subs| ==> Kid(w, db, t.subs[i]);
      hide Kid;
      forall i | 0 <= i < 17
        ensures Backed(w, db, RefNode(w, t.subs[i]), t.subs[i], false)
      {
        BackedRef(w, db, t.subs[i]);
      }
    }
  }

  lemma {:induction false} BackedRef(w: World, db: Db, t: Tree)
    requires Minimal(t) && Kid(w, db, t)
    ensures Backed(w, db, RefNode(w, t), t, false)
    decreases t, 1
  {
    if Inner(t) && !Large(w, t) {
      BackedShallow(w, db, t, None, false);
    }
  }

  /** A backed hash node is in the database, and what it resolves to is backed. */
  lemma ResolveBacked(w: World, db: Db, h: Hash, t: Tree, root: bool)
    requires Stands(w, db, HashN(h), t, root) && Backed(w, db, HashN(h), t, root)
    ensures Inner(t) && h in db && Resolve(db, h) == Some(Shallow(w, t, Some(h)))
    ensures Stands(w, db, Shallow(w, t, Some(h)), t, root) && Backed(w, db, Shallow(w, t, Some(h)), t, root)
  {
    assert Canonical(t);
    ResolveStands(w, db, h, t, root);
    BackedShallow(w, db, t, Some(h), root);
  }

  lemma BackedSet(w: World, db: Db, cs: seq<Node>, subs: seq<Tree>, i: nat, n: Node, t: Tree)
    requires BackedAll(w, db, cs, subs) && i < |subs| && Backed(w, db, n, t, false)
    ensures BackedAll(w, db, cs[i := n], subs[i := t])
  {
    hide Backed;
  }

  lemma BackedFull(w: World, db: Db, cs: seq<Node>, subs: seq<Tree>, flag: Flag, root: bool)
    requires !flag.dirty ==> Held(w, db, Branch(subs), root)
    ensures Backed(w, db, Full(cs, flag), Branch(subs), root) <==> BackedAll(w, db, cs, subs)
  {}

  lemma {:induction false} TryGetBacked(db: Db, n: Node, key: Hex, w: World, t: Tree, root: bool)
    requires Stands(w, db, n, t, root) && Backed(w, db, n, t, root)
    ensures
      var r := TryGet(db, n, key, w, t, root);
      r.Got? && Backed(w, db, r.node, t, root)
    decreases t, if n.HashN? then 1 else 0
  {
    hide Sound;
    hide Covers;
    hide Enc;
    match n
    case Short(k, val, _) =>
      StandsShort(w, db, n, t, root);
      if k <= key {
        TryGetBacked(db, val, key[|k|..], w, t.sub, false);
      }
    case Full(cs, flag) =>
      if key != [] && key[0] < |cs| {
        var i := key[0];
        StandsFull(w, db, n, t, root, i);
        TryGetBacked(db, cs[i], key[1..], w, t.subs[i], false);
        var r := TryGet(db, cs[i], key[1..], w, t.subs[i], false);
        BackedSplit(w, db, n, t, root);
        assert t == Branch(t.subs) && t.subs[i := t.subs[i]] == t.subs;
        BackedSet(w, db, cs, t.subs, i, r.node, t.subs[i]);
        BackedFull(w, db, cs[i := r.node], t.subs, flag, root);
      }
    case HashN(h) =>
      ResolveBacked(w, db, h, t, root);
      hide Stands;
      TryGetBacked(db, Resolve(db, h).value, key, w, t, root);
    case _ =>
  }

  lemma BackedFork(w: World, db: Db, k: Hex, val: Node, c: Tree, key: Hex, v: seq<byte>, m: nat, root: bool)
    requires m < |k| && m < |key| && Backed(w, db, val, c, false)
    ensures Backed(w, db, ForkN(k, val, key, v, m), Fork(k, c, key, v, m), root)
  {
    var a, ta := UnderN(k[m + 1..], val), Under(k[m + 1..], c);
    var b, tb := UnderN(key[m + 1..], Val(v)), Under(key[m + 1..], Leaf(v));
    assert Backed(w, db, a, ta, false) && Backed(w, db, b, tb, false);
    hide Under;
    hide UnderN;
    var cs, subs := NilChildren(), NoSubs();
    assert BackedAll(w, db, cs, subs);
    var cs1, subs1 := Put(cs, k[m], a), Put(subs, k[m], ta);
    if k[m] < 17 {
      BackedSet(w, db, cs, subs, k[m], a, ta);
    }
    var cs2, subs2 := Put(cs1, key[m], b), Put(subs1, key[m], tb);
    if key[m] < 17 {
      BackedSet(w, db, cs1, subs1, key[m], b, tb);
    }
    hide Put;
    BackedFull(w, db, cs2, subs2, NEW_FLAG, true);
    BackedFull(w, db, cs2, subs2, NEW_FLAG, false);
  }

  ghost predicate InsertBackedOk(db: Db, n: Node, key: Hex, v: seq<byte>, w: World, t: Tree, root: bool)
    requires Stands(w, db, n, t, root)
  {
    var r := InsertN(db, n, key, v, w, t, root);
    r.Edit? && Backed(w, db, r.node, Insert(t, key, v), root)
  }

  lemma {:induction false} InsertBacked(db: Db, n: Node, key: Hex, v: seq<byte>, w: World, t: Tree, root: bool)
    requires Stands(w, db, n, t, root) && Backed(w, db, n, t, root) && At(t, key)
    ensures InsertBackedOk(db, n, key, v, w, t, root)
    decreases t, if n.HashN? then 1 else 0
  {
    if key != [] {
      match n
      case Nil =>
        assert t == Empty && Backed(w, db, Val(v), Leaf(v), false);
      case Val(_) =>
      case Short(_, _, _) => InsertShortBacked(db, n, key, v, w, t, root);
      case Full(_, _) => InsertFullBacked(db, n, key, v, w, t, root);
      case HashN(h) =>
        ResolveBacked(w, db, h, t, root);
        hide Stands;
        var rn := Resolve(db, h).value;
        InsertBacked(db, rn, key, v, w, t, root);
        InsertCorrect(db, rn, key, v, w, t, root);
    }
  }

  lemma {:induction false} InsertShortBacked(db: Db, n: Node, key: Hex, v: seq<byte>, w: World, t: Tree, root: bool)
    requires n.Short? && Stands(w, db, n, t, root) && Backed(w, db, n, t, root) && At(t, key) && key != []
    ensures InsertBackedOk(db, n, key, v, w, t, root)
    decreases t, -1
  {
    hide Covers;
    hide Enc;
    hide Sound;
    hide PrefixLen;
    hide Fork;
    hide ForkN;
    StandsShort(w, db, n, t, root);
    InsertCorrect(db, n, key, v, w, t, root);
    hide Stands;
    hide Rep;
    var k, m := n.key, PrefixLen(key, n.key);
    DescendAt(k, t.sub, key);
    if m == |k| {
      InsertBacked(db, n.val, key[m..], v, w, t.sub, false);
    } else {
      BackedFork(w, db, k, n.val, t.sub, key, v, m, root);
    }
  }

  lemma {:induction false} InsertFullBacked(db: Db, n: Node, key: Hex, v: seq<byte>, w: World, t: Tree, root: bool)
    requires n.Full? && Stands(w, db, n, t, root) && Backed(w, db, n, t, root) && At(t, key) && key != []
    ensures InsertBackedOk(db, n, key, v, w, t, root)
    decreases t, -1
  {
    hide Covers;
    hide Enc;
    hide Sound;
    var i := key[0];
    StandsFull(w, db, n, t, root, i);
    InsertCorrect(db, n, key, v, w, t, root);
    hide Stands;
    hide Rep;
    BranchAt(t.subs, key);
    InsertBacked(db, n.children[i], key[1..], v, w, t.subs[i], false);
    var r := InsertN(db, n.children[i], key[1..], v, w, t.subs[i], false);
    BackedSplit(w, db, n, t, root);
    var nt := Insert(t.subs[i], key[1..], v);
    BackedSet(w, db, n.children, t.subs, i, r.node, nt);
    BackedFull(w, db, n.children[i := r.node], t.subs[i := nt], NEW_FLAG, root);
    hide Backed;
  }

  ghost predicate DeleteBackedOk(db: Db, n: Node, key: Hex, w: World, t: Tree, root: bool)
    requires Stands(w, db, n, t, root)
  {
    var r := DeleteN(db, n, key, w, t, root);
    r.Edit? && Backed(w, db, r.node, Delete(t, key), root)
  }

  lemma BackedMerge(w: World, db: Db, k: Hex, child: Node, t: Tree, root: bool)
    requires Rep(w, child, t, false) && !child.HashN? && Backed(w, db, child, t, false)
    ensures Backed(w, db, MergeN(k, child), Merge(k, t), root)
  {}

  lemma {:induction false} DeleteBacked(db: Db, n: Node, key: Hex, w: World, t: Tree, root: bool)
    requires Stands(w, db, n, t, root) && Backed(w, db, n, t, root) && At(t, key)
    ensures DeleteBackedOk(db, n, key, w, t, root)
    decreases t, if n.HashN? then 1 else 0
  {
    match n
    case Nil =>
    case Val(_) =>
    case Short(_, _, _) => DeleteShortBacked(db, n, key, w, t, root);
    case Full(_, _) => DeleteFullBacked(db, n, key, w, t, root);
    case HashN(h) =>
      ResolveBacked(w, db, h, t, root);
      hide Stands;
      var rn := Resolve(db, h).value;
      DeleteBacked(db, rn, key, w, t, root);
      DeleteCorrect(db, rn, key, w, t, root);
  }

  lemma {:induction false} DeleteShortBacked(db: Db, n: Node, key: Hex, w: World, t: Tree, root: bool)
    requires n.Short? && Stands(w, db, n, t, root) && Backed(w, db, n, t, root) && At(t, key)
    ensures DeleteBackedOk(db, n, key, w, t, root)
    decreases t, -1
  {
    hide Covers;
    hide Enc;
    hide Sound;
    hide PrefixLen;
    hide Merge;
    hide MergeN;
    StandsShort(w, db, n, t, root);
    DeleteCorrect(db, n, key, w, t, root);
    var k, m := n.key, PrefixLen(key, n.key);
    DescendAt(k, t.sub, key);
    if m == |k| < |key| {
      DeleteBacked(db, n.val, key[m..], w, t.sub, false);
      DeleteCorrect(db, n.val, key[m..], w, t.sub, false);
      var r := DeleteN(db, n.val, key[m..], w, t.sub, false);
      if r.dirty {
        DeleteAbsent(t.sub, key[m..]);
        BackedMerge(w, db, k, r.node, Delete(t.sub, key[m..]), root);
      }
    }
    hide Stands;
    hide Rep;
  }

  lemma {:induction false} DeleteFullBacked(db: Db, n: Node, key: Hex, w: World, t: Tree, root: bool)
    requires n.Full? && Stands(w, db, n, t, root) && Backed(w, db, n, t, root) && At(t, key)
    ensures DeleteBackedOk(db, n, key, w, t, root)
    decreases t, -1
  {
    hide Enc;
    hide Sound;
    hide Shrink;
    hide ShrinkN;
    var i := key[0];
    StandsFull(w, db, n, t, root, i);
    BranchAt(t.subs, key);
    DeleteCorrect(db, n, key, w, t, root);
    DeleteBacked(db, n.children[i], key[1..], w, t.subs[i], false);
    DeleteCorrect(db, n.children[i], key[1..], w, t.subs[i], false);
    DeleteAbsent(t.subs[i], key[1..]);
    var r := DeleteN(db, n.children[i], key[1..], w, t.subs[i], false);
    var nt := Delete(t.subs[i], key[1..]);
    if r.dirty {
      BackedSplit(w, db, n, t, root);
      RepSet(w, n.children, t.subs, i, r.node, nt);
      BackedSet(w, db, n.children, t.subs, i, r.node, nt);
      ShrinkBacked(w, db, n.children, t.subs, i, r.node, nt, root);
    }
    hide Rep;
    hide Backed;
    hide Stands;
  }

  lemma ShrinkBacked(w: World, db: Db, cs: seq<Node>, subs: seq<Tree>, i: nat, n: Node, t: Tree, root: bool)
    requires w.Valid() && Sound(w, db) && Canonical(Branch(subs)) && Covers(w, Branch(subs))
    requires RepAll(w, cs, subs) && i < 17 && RepAll(w, cs[i := n], subs[i := t])
    requires BackedAll(w, db, cs, subs) && BackedAll(w, db, cs[i := n], subs[i := t])
    ensures
      var r := ShrinkN(db, cs[i := n]);
      r.Edit? && Backed(w, db, r.node, Shrink(subs[i := t]), root)
  {
    hide Covers;
    hide Enc;
    hide Sound;
    hide Rep;
    hide Backed;
    hide BackedAll;
    assert |subs| == 17 && TwoPresent(subs);
    hide Canonical;
    var cs', subs' := cs[i := n], subs[i := t];
    SamePresent(w, cs', subs');
    var pos := Sole(Present(subs'));
    hide Sole;
    hide Single;
    hide SingleN;
    if pos >= 0 {
      OtherLeft(subs, i, subs', pos);
      SingleBacked(w, db, cs, subs, pos, root);
    } else {
      BackedFull(w, db, cs', subs', NEW_FLAG, root);
    }
  }

  lemma SingleBacked(w: World, db: Db, cs: seq<Node>, subs: seq<Tree>, pos: byte, root: bool)
    requires w.Valid() && Sound(w, db) && Canonical(Branch(subs)) && Covers(w, Branch(subs))
    requires RepAll(w, cs, subs) && BackedAll(w, db, cs, subs) && pos < 17
    ensures
      var r := SingleN(db, pos, cs[pos]);
      r.Edit? && Backed(w, db, r.node, Single(pos, subs[pos]), root)
  {
    var c, s := cs[pos], subs[pos];
    assert Stands(w, db, c, s, false);
    assert Backed(w, db, Short([pos], c, NEW_FLAG), Ext([pos], s), root);
    hide Covers;
    if pos < 16 && c.HashN? {
      ResolveBacked(w, db, c.h, s, false);
      var rn := Resolve(db, c.h).value;
      hide Resolve;
      BackedMerge(w, db, [pos], rn, s, root);
      assert !rn.Short? ==> Merge([pos], s) == Ext([pos], s);
    } else if pos < 16 {
      BackedMerge(w, db, [pos], c, s, root);
    }
  }
}
