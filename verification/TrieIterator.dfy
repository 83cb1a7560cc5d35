/**
 * The stack iterator of proton/trie/iterator.go: peek, push, pop, seek and Next over nodes that
 * are loaded on the way, proved to walk the pre-order of the trie.
 */
module TrieIterator {
  import opened Bytes
  import opened TrieEncoding
  import opened TrieTree
  import opened TrieNode
  import opened TrieLazy
  import opened TrieHasher
  import opened TrieBacked
  import opened TrieVisit
  import TrieRun

  /** One level of the iteration. */
  datatype Frame = Frame(hash: Hash, node: Node, parent: Hash, index: int, pathlen: nat)

  datatype Status = Running | AtEnd | SeekFailed(key: seq<byte>, missing: Hash) | Failed(missing: Hash)

  /** The frame's node is loaded and stands for the tree; a hash it carries is the tree's own. */
  ghost predicate FrameOk(w: World, db: Db, f: Frame, t: Tree, root: bool) {
    && Stands(w, db, f.node, t, root) && !f.node.HashN? && f.index >= -1
    && (f.hash != ZeroHash() ==> Inner(t) && f.hash == NodeHash(w, t))
  }

  /** What is left to visit: below the top frame, then below each frame under it. */
  ghost function Rest(fs: seq<Frame>, ts: seq<Tree>, path: Hex): (vs: seq<Visit>)
    requires |fs| == |ts|
  {
    if fs == [] then []
    else
      var n := |fs| - 1;
      After(ts[n], path, fs[n].index) + Rest(fs[..n], ts[..n], Cut(path, fs[n].pathlen))
  }

  function Cut(path: Hex, n: nat): (p: Hex) {
    if n <= |path| then path[..n] else path
  }

  ghost predicate Fits(w: World, db: Db, fs: seq<Frame>, ts: seq<Tree>, path: Hex) {
    && |fs| == |ts|
    && (fs != [] ==>
      var n := |fs| - 1;
      && fs[n].pathlen <= |path| && FrameOk(w, db, fs[n], ts[n], n == 0)
      && Fits(w, db, fs[..n], ts[..n], Cut(path, fs[n].pathlen)))
  }

  // ---- children ----

  lemma {:induction false} SkipEmpty(subs: seq<Tree>, i: nat, j: nat, path: Hex)
    requires i <= j <= |subs| && forall k :: i <= k < j ==> subs[k] == Empty
    ensures PreFrom(subs, i, path) == PreFrom(subs, j, path)
    decreases j - i
  {
    if i < j {
      SkipEmpty(subs, i + 1, j, path);
    }
  }

  /** The next child of a frame: the node, the path to it, and the frame's index just before it. */
  datatype Child = Child(node: Node, path: Hex, index: int)

  /** The child is the first of the remaining visits, and the rest comes after the child's position. */
  ghost predicate ChildOk(w: World, db: Db, t: Tree, path: Hex, index: int, c: Child, ct: Tree) {
    && Stands(w, db, c.node, ct, false) && path < c.path && c.index >= -1
    && After(t, path, index) == After(t, path, c.index) == Pre(ct, c.path) + After(t, path, c.index + 1)
  }

  method NextChild(f: Frame, path: Hex, ghost w: World, ghost db: Db, ghost t: Tree, ghost root: bool)
    returns (r: Option<Child>, ghost ct: Tree)
    requires FrameOk(w, db, f, t, root)
    ensures r.None? ==> After(t, path, f.index) == []
    ensures r.Some? ==> ChildOk(w, db, t, path, f.index, r.value, ct)
    ensures r.Some? && Backed(w, db, f.node, t, root) ==> Backed(w, db, r.value.node, ct, false)
  {
    hide Stands;
    hide Held;
    ct := Empty;
    match f.node
    case Full(children, _) =>
      r, ct := NextFull(f.node, f.index, path, w, db, t, root);
    case Short(key, val, _) =>
      StandsShort(w, db, f.node, t, root);
      ct := t.sub;
      if f.index < 0 {
        ShortChild(w, db, t, path, f.index);
        return Some(Child(val, path + key, f.index)), ct;
      }
      return None, ct;
    case _ =>
      NoChild(w, db, f.node, t, root, path, f.index);
      return None, ct;
  }

  lemma NoChild(w: World, db: Db, n: Node, t: Tree, root: bool, path: Hex, index: int)
    requires Stands(w, db, n, t, root) && (n.Nil? || n.Val?)
    ensures After(t, path, index) == []
  {}

  lemma ShortChild(w: World, db: Db, t: Tree, path: Hex, index: int)
    requires t.Ext? && Canonical(t) && index == -1
    ensures path < path + t.key
    ensures After(t, path, index) == Pre(t.sub, path + t.key) + After(t, path, index + 1)
  {
    assert t.key != [];
  }

  /** The loop over the children of a full node: the first one that is there. */
  method NextFull(n: Node, index: int, path: Hex, ghost w: World, ghost db: Db, ghost t: Tree, ghost root: bool)
    returns (r: Option<Child>, ghost ct: Tree)
    requires Stands(w, db, n, t, root) && n.Full? && index >= -1
    ensures r.None? ==> After(t, path, index) == []
    ensures r.Some? ==> ChildOk(w, db, t, path, index, r.value, ct)
    ensures r.Some? && Backed(w, db, n, t, root) ==> Backed(w, db, r.value.node, ct, false)
  {
    hide Backed;
    hide Stands;
    hide Pre;
    hide Canonical;
    StandsFull(w, db, n, t, root, 0);
    ct := Empty;
    var i := index + 1;
    while i < |n.children|
      invariant index + 1 <= i
      invariant forall k :: index + 1 <= k < i && k < 17 ==> t.subs[k] == Empty
      decreases |n.children| - i
    {
      StandsFull(w, db, n, t, root, i);
      if n.children[i] != Nil {
        PresentChild(w, db, n.children[i], t.subs[i]);
        SkipEmpty(t.subs, index + 1, i, path);
        FullChild(t.subs, i, path);
        BackedChild(w, db, n, t, root, i);
        return Some(Child(n.children[i], path + [i], i - 1)), t.subs[i];
      }
      NilChild(w, db, t.subs[i]);
      i := i + 1;
    }
    if index + 1 <= 17 {
      SkipEmpty(t.subs, index + 1, 17, path);
    }
    r := None;
  }

  lemma BackedChild(w: World, db: Db, n: Node, t: Tree, root: bool, i: nat)
    requires n.Full? && i < |n.children| && t.Branch? && i < |t.subs|
    ensures Backed(w, db, n, t, root) ==> Backed(w, db, n.children[i], t.subs[i], false)
  {
    hide Held;
  }

  lemma PresentChild(w: World, db: Db, n: Node, t: Tree)
    requires Stands(w, db, n, t, false) && n != Nil
    ensures t != Empty
  {}

  lemma NilChild(w: World, db: Db, t: Tree)
    requires Stands(w, db, Nil, t, false)
    ensures t == Empty
  {}

  lemma FullChild(subs: seq<Tree>, i: byte, path: Hex)
    requires i < |subs| && subs[i] != Empty
    ensures PreFrom(subs, i, path) == Pre(subs[i], path + [i]) + PreFrom(subs, i + 1, path)
  {}

  // ---- the stack ----

  ghost predicate Suffix<T>(a: seq<T>, b: seq<T>) {
    |a| <= |b| && a == b[|b| - |a|..]
  }

  lemma SuffixTrans<T>(a: seq<T>, b: seq<T>, c: seq<T>)
    requires Suffix(a, b) && Suffix(b, c)
    ensures Suffix(a, c)
  {}

  lemma SuffixTail<T>(a: seq<T>, b: seq<T>)
    requires Suffix(a, b) && a != []
    ensures Suffix(a[1..], b)
  {}

  lemma SuffixSelf<T>(a: seq<T>)
    ensures Suffix(a, a)
  {}

  lemma SuffixOfConcat<T>(a: seq<T>, b: seq<T>)
    ensures Suffix(b, a + b)
  {}

  function SetIndex(fs: seq<Frame>, index: int): (r: seq<Frame>)
    requires fs != []
    ensures |r| == |fs| && r[|fs| - 1].index == index && r[|fs| - 1].pathlen == fs[|fs| - 1].pathlen
    ensures r[..|fs| - 1] == fs[..|fs| - 1]
  {
    fs[|fs| - 1 := fs[|fs| - 1].(index := index)]
  }

  /** The stack after push: the parent has moved on to the new child. */
  function Pushed(fs: seq<Frame>, f: Frame): (r: seq<Frame>) {
    (if fs == [] then [] else SetIndex(fs, fs[|fs| - 1].index + 1)) + [f]
  }

  lemma RestTop(fs: seq<Frame>, ts: seq<Tree>, path: Hex)
    requires |fs| == |ts| && fs != []
    ensures
      var n := |fs| - 1;
      Rest(fs, ts, path) == After(ts[n], path, fs[n].index) + Rest(fs[..n], ts[..n], Cut(path, fs[n].pathlen))
  {}

  lemma SetIndexFits(w: World, db: Db, fs: seq<Frame>, ts: seq<Tree>, path: Hex, index: int)
    requires Fits(w, db, fs, ts, path) && fs != [] && index >= -1
    ensures Fits(w, db, SetIndex(fs, index), ts, path)
    ensures
      var n := |fs| - 1;
      Rest(SetIndex(fs, index), ts, path) ==
        After(ts[n], path, index) + Rest(fs[..n], ts[..n], Cut(path, fs[n].pathlen))
  {
    hide Stands;
    hide After;
    var r := SetIndex(fs, index);
    assert r[..|fs| - 1] == fs[..|fs| - 1];
  }

  lemma PushFits(w: World, db: Db, fs: seq<Frame>, ts: seq<Tree>, path: Hex, f: Frame, t: Tree, p: Hex)
    requires Fits(w, db, fs, ts, path) && path <= p && f.pathlen == |path| && FrameOk(w, db, f, t, fs == [])
    ensures Fits(w, db, fs + [f], ts + [t], p)
    ensures Rest(fs + [f], ts + [t], p) == After(t, p, f.index) + Rest(fs, ts, path)
  {
    hide FrameOk;
    hide After;
    assert (fs + [f])[..|fs|] == fs && (ts + [t])[..|ts|] == ts;
    assert Cut(p, |path|) == path;
  }

  /** The child found under the top frame heads what is left; pushing it leaves the tail. */
  lemma PushChild(w: World, db: Db, fs: seq<Frame>, ts: seq<Tree>, path: Hex, c: Child, ct: Tree, f: Frame)
    requires Fits(w, db, fs, ts, path) && fs != [] && ChildOk(w, db, ts[|ts| - 1], path, fs[|fs| - 1].index, c, ct)
    requires FrameOk(w, db, f, ct, false) && f.index == -1 && f.pathlen == |path|
    ensures
      var fs' := SetIndex(fs, c.index);
      && Fits(w, db, fs', ts, path) && Rest(fs', ts, path) == Rest(fs, ts, path)
      && Fits(w, db, Pushed(fs', f), ts + [ct], c.path)
      && Rest(fs, ts, path) == [Visit(c.path, ct)] + Rest(Pushed(fs', f), ts + [ct], c.path)
  {
    hide FrameOk;
    hide Stands;
    hide After;
    hide Fits;
    hide Rest;
    hide Pre;
    hide Cut;
    hide SetIndex;
    hide Pushed;
    hide ChildOk;
    FitsLength(w, db, fs, ts, path);
    StayPut(w, db, fs, ts, path, c, ct);
    MoveOn(w, db, fs, ts, path, c, ct, f);
  }

  /** Setting the index to just before the child changes nothing. */
  lemma StayPut(w: World, db: Db, fs: seq<Frame>, ts: seq<Tree>, path: Hex, c: Child, ct: Tree)
    requires Fits(w, db, fs, ts, path) && fs != [] && ChildOk(w, db, ts[|ts| - 1], path, fs[|fs| - 1].index, c, ct)
    ensures
      var (fs', n) := (SetIndex(fs, c.index), |fs| - 1);
      && Fits(w, db, fs', ts, path) && Rest(fs', ts, path) == Rest(fs, ts, path)
      && Rest(fs, ts, path) ==
        Pre(ct, c.path) + After(ts[n], path, c.index + 1) + Rest(fs[..n], ts[..n], Cut(path, fs[n].pathlen))
  {
    hide FrameOk;
    hide Stands;
    hide After;
    hide Fits;
    hide Rest;
    hide Pre;
    hide Cut;
    hide SetIndex;
    FitsLength(w, db, fs, ts, path);
    RestTop(fs, ts, path);
    SetIndexFits(w, db, fs, ts, path, c.index);
  }

  lemma MoveOn(w: World, db: Db, fs: seq<Frame>, ts: seq<Tree>, path: Hex, c: Child, ct: Tree, f: Frame)
    requires Fits(w, db, fs, ts, path) && fs != [] && ChildOk(w, db, ts[|ts| - 1], path, fs[|fs| - 1].index, c, ct)
    requires FrameOk(w, db, f, ct, false) && f.index == -1 && f.pathlen == |path|
    ensures
      var fs' := SetIndex(fs, c.index);
      && Fits(w, db, Pushed(fs', f), ts + [ct], c.path)
      && Rest(fs, ts, path) == [Visit(c.path, ct)] + Rest(Pushed(fs', f), ts + [ct], c.path)
  {
    hide *;
    FitsLength(w, db, fs, ts, path);
    var n := |fs| - 1;
    var top := After(ts[n], path, c.index + 1);
    var below := Rest(fs[..n], ts[..n], Cut(path, fs[n].pathlen));
    StayPut(w, db, fs, ts, path, c, ct);
    PathGrows(w, db, ts[n], path, fs[n].index, c, ct);
    SetIndexFits(w, db, fs, ts, path, c.index + 1);
    PushedIs(fs, c.index, f);
    PushRest(w, db, SetIndex(fs, c.index + 1), ts, path, f, ct, c.path, top, below, Rest(fs, ts, path));
  }

  lemma PushRest(w: World, db: Db, fs: seq<Frame>, ts: seq<Tree>, path: Hex, f: Frame, t: Tree, p: Hex,
                 top: seq<Visit>, below: seq<Visit>, whole: seq<Visit>)
    requires Fits(w, db, fs, ts, path) && path <= p && f.pathlen == |path| && f.index == -1
    requires FrameOk(w, db, f, t, false)
    requires fs != [] && Rest(fs, ts, path) == top + below && whole == Pre(t, p) + top + below
    ensures Fits(w, db, fs + [f], ts + [t], p)
    ensures whole == [Visit(p, t)] + Rest(fs + [f], ts + [t], p)
  {
    hide *;
    PushFits(w, db, fs, ts, path, f, t, p);
    PreUnfold(t, p);
    Assoc4(Visit(p, t), After(t, p, -1), top, below);
  }

  lemma PathGrows(w: World, db: Db, t: Tree, path: Hex, index: int, c: Child, ct: Tree)
    requires ChildOk(w, db, t, path, index, c, ct)
    ensures path <= c.path && c.index >= -1
  {}

  lemma PushedIs(fs: seq<Frame>, i: int, f: Frame)
    requires fs != []
    ensures Pushed(SetIndex(fs, i), f) == SetIndex(fs, i + 1) + [f]
  {
    assert SetIndex(SetIndex(fs, i), i + 1) == SetIndex(fs, i + 1);
  }

  lemma PreUnfold(t: Tree, path: Hex)
    ensures Pre(t, path) == [Visit(path, t)] + After(t, path, -1)
  {}

  lemma Assoc4(x: Visit, a: seq<Visit>, b: seq<Visit>, c: seq<Visit>)
    ensures ([x] + a) + b + c == [x] + (a + (b + c))
  {}

  lemma FitsLength(w: World, db: Db, fs: seq<Frame>, ts: seq<Tree>, path: Hex)
    requires Fits(w, db, fs, ts, path)
    ensures |fs| == |ts|
    ensures fs != [] ==> fs[|fs| - 1].pathlen <= |path| && FrameOk(w, db, fs[|fs| - 1], ts[|ts| - 1], |fs| == 1)
    ensures fs != [] ==> Fits(w, db, fs[..|fs| - 1], ts[..|ts| - 1], Cut(path, fs[|fs| - 1].pathlen))
  {
    hide FrameOk;
  }

  /** Below the top frame every path goes on from the current one. */
  lemma AfterExtends(w: World, db: Db, n: Node, t: Tree, root: bool, path: Hex, index: int)
    requires Stands(w, db, n, t, root) && index >= -1
    ensures forall x :: x in After(t, path, index) ==> path < x.path
  {
    match t
    case Ext(k, c) =>
      PreSorted(c, path + k);
    case Branch(subs) =>
      PreFromSorted(subs, index + 1, path);
    case _ =>
  }

  // ---- frames ----

  datatype Peeked = Ready(state: Frame, path: Hex) | Done | Lost(h: Hash)

  /** The hash a node carries in its cache, or the zero hash. */
  function HashField(n: Node): (h: Hash) {
    if CachedHash(n).Some? then CachedHash(n).value else ZeroHash()
  }

  /** resolve: a hash node is replaced by what the database has under it. */
  function Load(db: Db, f: Frame): (r: Option<Frame>) {
    if f.node.HashN? then
      var n := Resolve(db, f.node.h);
      if n.Some? then Some(f.(node := n.value, hash := f.node.h)) else None
    else Some(f)
  }

  lemma LoadOk(w: World, db: Db, f: Frame, t: Tree, root: bool)
    requires Stands(w, db, f.node, t, root) && f.index >= -1
    requires f.hash != ZeroHash() && !f.node.HashN? ==> Inner(t) && f.hash == NodeHash(w, t)
    ensures Load(db, f).Some? ==>
      var g := Load(db, f).value; FrameOk(w, db, g, t, root) && g.index == f.index && g.pathlen == f.pathlen
    ensures Load(db, f).None? ==> f.node.HashN? && f.node.h !in db
  {
    hide Stands;
    hide Resolve;
    hide Shallow;
    if f.node.HashN? {
      HashStands(w, db, f.node.h, t, root);
      if f.node.h in db {
        ResolveStands(w, db, f.node.h, t, root);
        ShallowLoaded(w, t, Some(f.node.h));
      }
      ResolveAbsent(db, f.node.h);
    }
  }

  /** Over a database that has every part not in memory, a state can always be loaded. */
  lemma LoadBacked(w: World, db: Db, f: Frame, t: Tree, root: bool)
    requires Stands(w, db, f.node, t, root) && Backed(w, db, f.node, t, root)
    ensures Load(db, f).Some? && Backed(w, db, Load(db, f).value.node, t, root)
  {
    hide Stands;
    hide Backed;
    hide Resolve;
    hide Shallow;
    if f.node.HashN? {
      ResolveBacked(w, db, f.node.h, t, root);
    }
  }

  /** All parts of the frames' nodes that are not in memory are in the database. */
  ghost predicate BackedFrames(w: World, db: Db, fs: seq<Frame>, ts: seq<Tree>) {
    |fs| == |ts| && forall i :: 0 <= i < |fs| ==> Backed(w, db, fs[i].node, ts[i], i == 0)
  }

  lemma BackedNone(w: World, db: Db)
    ensures BackedFrames(w, db, [], [])
  {}

  lemma BackedPop(w: World, db: Db, fs: seq<Frame>, ts: seq<Tree>)
    requires BackedFrames(w, db, fs, ts) && fs != []
    ensures BackedFrames(w, db, fs[..|fs| - 1], ts[..|ts| - 1])
    ensures Backed(w, db, fs[|fs| - 1].node, ts[|ts| - 1], |fs| == 1)
  {
    hide Backed;
  }

  lemma BackedIndex(w: World, db: Db, fs: seq<Frame>, ts: seq<Tree>, index: int)
    requires BackedFrames(w, db, fs, ts) && fs != []
    ensures BackedFrames(w, db, SetIndex(fs, index), ts)
  {
    hide Backed;
    var r := SetIndex(fs, index);
    forall i | 0 <= i < |fs|
      ensures r[i].node == fs[i].node
    {
      if i < |fs| - 1 {
        assert r[i] == r[..|fs| - 1][i] == fs[i];
      }
    }
  }

  lemma BackedPush(w: World, db: Db, fs: seq<Frame>, ts: seq<Tree>, f: Frame, t: Tree)
    requires BackedFrames(w, db, fs, ts) && Backed(w, db, f.node, t, fs == [])
    ensures BackedFrames(w, db, Pushed(fs, f), ts + [t])
  {
    hide Backed;
    hide SetIndex;
    if fs != [] {
      BackedIndex(w, db, fs, ts, fs[|fs| - 1].index + 1);
    }
  }

  /** The child's state is loaded and can be pushed. */
  lemma BackedStep(w: World, db: Db, fs: seq<Frame>, ts: seq<Tree>, f: Frame, c: Child, ct: Tree, path: Hex, index: int,
                   t: Tree)
    requires ChildOk(w, db, t, path, index, c, ct) && f.node == c.node && fs != []
    requires BackedFrames(w, db, fs, ts) && Backed(w, db, c.node, ct, false)
    ensures Load(db, f).Some? && BackedFrames(w, db, SetIndex(fs, c.index), ts)
    ensures BackedFrames(w, db, Pushed(SetIndex(fs, c.index), Load(db, f).value), ts + [ct])
  {
    hide Stands;
    hide Backed;
    hide BackedFrames;
    hide Pushed;
    hide SetIndex;
    hide After;
    hide Pre;
    hide Load;
    LoadBacked(w, db, f, ct, false);
    BackedIndex(w, db, fs, ts, c.index);
    BackedPush(w, db, SetIndex(fs, c.index), ts, Load(db, f).value, ct);
  }

  lemma ResolveAbsent(db: Db, h: Hash)
    ensures h !in db ==> Resolve(db, h).None?
  {}

  lemma HashStands(w: World, db: Db, h: Hash, t: Tree, root: bool)
    requires Stands(w, db, HashN(h), t, root)
    ensures Inner(t) && h == NodeHash(w, t)
  {}

  lemma ShallowLoaded(w: World, t: Tree, h: Option<Hash>)
    requires Inner(t)
    ensures !Shallow(w, t, h).HashN?
  {}

  lemma HashFieldOk(w: World, db: Db, n: Node, t: Tree, root: bool)
    requires Stands(w, db, n, t, root) && HashField(n) != ZeroHash()
    ensures Inner(t) && HashField(n) == NodeHash(w, t)
  {}

  lemma RootFrame(w: World, db: Db, n: Node, t: Tree, h: Hash)
    requires Stands(w, db, n, t, true) && Canonical(t)
    requires h == if TrieRun.RootHash(w, t) != TrieRun.EmptyRoot(w) then TrieRun.RootHash(w, t) else ZeroHash()
    ensures h != ZeroHash() ==> Inner(t) && h == NodeHash(w, t)
  {}

  lemma NoRest(path: Hex)
    ensures Rest([], [], path) == []
  {}

  /** The state made for a child can be pushed once it is loaded. */
  lemma ChildFrame(w: World, db: Db, t: Tree, path: Hex, index: int, c: Child, ct: Tree, f: Frame)
    requires ChildOk(w, db, t, path, index, c, ct) && f.node == c.node && f.hash == HashField(c.node) && f.index == -1
    ensures Load(db, f).Some? ==>
      var g := Load(db, f).value; FrameOk(w, db, g, ct, false) && g.index == -1 && g.pathlen == f.pathlen
    ensures Load(db, f).None? ==> f.node.HashN? && f.node.h !in db
  {
    hide Stands;
    hide After;
    hide Pre;
    hide Load;
    hide FrameOk;
    if f.hash != ZeroHash() {
      HashFieldOk(w, db, c.node, ct, false);
    }
    LoadOk(w, db, f, ct, false);
  }

  lemma GoalSuffix(w: World, db: Db, fs: seq<Frame>, ts: seq<Tree>, path: Hex)
    requires Fits(w, db, fs, ts, path) && fs != []
    ensures Suffix(Rest(fs, ts, path), Rest(fs, ts, path))
    ensures
      var n := |fs| - 1;
      && Suffix(Rest(fs[..n], ts[..n], Cut(path, fs[n].pathlen)), Rest(fs, ts, path))
      && forall x :: x in Rest(fs, ts, path) && x !in Rest(fs[..n], ts[..n], Cut(path, fs[n].pathlen)) ==> path < x.path
  {
    hide Stands;
    hide After;
    hide Rest;
    hide Fits;
    FitsLength(w, db, fs, ts, path);
    SuffixSelf(Rest(fs, ts, path));
    RestTop(fs, ts, path);
    var n := |fs| - 1;
    SuffixOfConcat(After(ts[n], path, fs[n].index), Rest(fs[..n], ts[..n], Cut(path, fs[n].pathlen)));
    AfterExtends(w, db, fs[n].node, ts[n], n == 0, path, fs[n].index);
  }

  /** What remains is the end of what there was, and only paths below the key were passed over. */
  ghost predicate Passed(before: seq<Visit>, after: seq<Visit>, key: Hex) {
    Suffix(after, before) && forall i :: 0 <= i < |before| - |after| ==> Less(before[i].path, key)
  }

  lemma HexPrefix(s: seq<byte>)
    ensures KeybytesToHex(s)[..|KeybytesToHex(s)| - 1] == Unpack(s)
  {}

  lemma PassNone(vs: seq<Visit>, key: Hex)
    ensures Passed(vs, vs, key)
  {}

  lemma PassTrans(a: seq<Visit>, b: seq<Visit>, c: seq<Visit>, key: Hex)
    requires Passed(a, b, key) && Passed(b, c, key)
    ensures Passed(a, c, key)
  {
    forall i | 0 <= i < |a| - |c|
      ensures Less(a[i].path, key)
    {
      if i >= |a| - |b| {
        assert a[i] == b[i - (|a| - |b|)];
      }
    }
  }

  lemma PassedLength(a: seq<Visit>, b: seq<Visit>, key: Hex)
    requires Passed(a, b, key)
    ensures |b| <= |a|
  {}

  lemma PassHead(a: seq<Visit>, b: seq<Visit>, key: Hex)
    requires Passed(a, b, key) && b != [] && Less(b[0].path, key)
    ensures Passed(a, b[1..], key)
  {
    assert a[|a| - |b|] == b[0];
  }

  lemma SuffixNone<T>(a: seq<T>)
    ensures Suffix([], a)
  {}

  lemma LessPrefix(p: Hex, q: Hex, key: Hex)
    requires p <= q && Less(q, key)
    ensures Less(p, key)
  {
    if p < q {
      LessExtended(p, q);
      LessTrans(p, q, key);
    }
  }

  /** Skipping the current subtree passes over nothing from the key on, if the current path is no prefix of it. */
  lemma PassGoal(w: World, db: Db, fs: seq<Frame>, ts: seq<Tree>, path: Hex, key: Hex, r: seq<Visit>, goal: seq<Visit>,
                 all: seq<Visit>, descend: bool)
    requires Fits(w, db, fs, ts, path) && |fs| == |ts| && r == (if fs == [] then all else Rest(fs, ts, path))
    requires goal ==
      if fs == [] || descend then r else Rest(fs[..|fs| - 1], ts[..|fs| - 1], Cut(path, fs[|fs| - 1].pathlen))
    requires fs != [] ==> Less(path, key)
    requires !descend ==> !(path <= key)
    ensures Passed(r, goal, key)
  {
    hide Less;
    hide Stands;
    hide FrameOk;
    hide After;
    hide Rest;
    hide Fits;
    hide Cut;
    if fs == [] || descend {
      PassNone(r, key);
    } else {
      FitsLength(w, db, fs, ts, path);
      RestTop(fs, ts, path);
      var n := |fs| - 1;
      var skipped := After(ts[n], path, fs[n].index);
      FrameExtends(w, db, fs[n], ts[n], n == 0, path);
      forall i | 0 <= i < |skipped|
        ensures Less(r[i].path, key)
      {
        assert r[i] == skipped[i];
        LessSkips(path, key, r[i].path);
      }
    }
  }

  lemma FrameExtends(w: World, db: Db, f: Frame, t: Tree, root: bool, path: Hex)
    requires FrameOk(w, db, f, t, root)
    ensures forall x :: x in After(t, path, f.index) ==> path < x.path
  {
    hide Stands;
    hide After;
    AfterExtends(w, db, f.node, t, root, path, f.index);
  }

  /** The paths are sorted: once one is not below the key, none is. */
  lemma AllFrom(t: Tree, vs: seq<Visit>, key: Hex)
    requires Canonical(t) && Suffix(vs, Pre(t, [])) && vs != [] && !Less(vs[0].path, key)
    ensures forall x :: x in vs ==> !Less(x.path, key)
  {
    hide Less;
    hide Pre;
    hide Canonical;
    SortedAll(t);
    var all := Pre(t, []);
    forall x | x in vs
      ensures !Less(x.path, key)
    {
      var i :| 0 <= i < |vs| && vs[i] == x;
      var k := |all| - |vs|;
      assert vs[0] == all[k] && vs[i] == all[k + i];
      if i > 0 && Less(x.path, key) {
        LessTrans(vs[0].path, x.path, key);
      }
    }
  }

  lemma SortedAll(t: Tree)
    requires Canonical(t)
    ensures Sorted(Pre(t, []))
  {
    PreSorted(t, []);
  }

  /** The next node to visit has an entry of its own, and that entry is missing. */
  ghost predicate LostAt(w: World, db: Db, goal: seq<Visit>, h: Hash) {
    && goal != [] && Inner(goal[0].tree) && h == NodeHash(w, goal[0].tree) && h !in db
    && (goal[0].path == [] || Large(w, goal[0].tree))
  }

  lemma ChildLost(w: World, db: Db, t: Tree, path: Hex, index: int, c: Child, ct: Tree, rest: seq<Visit>)
    requires ChildOk(w, db, t, path, index, c, ct) && c.node.HashN? && c.node.h !in db
    ensures LostAt(w, db, Pre(ct, c.path) + After(t, path, c.index + 1) + rest, c.node.h)
  {
    hide After;
    hide Canonical;
    hide Covers;
  }

  lemma RootLost(w: World, db: Db, n: Node, t: Tree)
    requires Stands(w, db, n, t, true) && n.HashN? && n.h !in db
    ensures LostAt(w, db, Pre(t, []), n.h)
  {
    hide After;
    hide Canonical;
    hide Covers;
  }

  class NodeIterator {
    const db: Db
    const root: Node
    const rootHash: Hash
    const emptyRoot: Hash
    ghost const w: World
    ghost const tree: Tree
    var stack: seq<Frame>
    var path: Hex
    var status: Status
    ghost var trees: seq<Tree>

    ghost function All(): (vs: seq<Visit>) {
      Pre(tree, [])
    }

    /** Everything still to come. */
    ghost function Remaining(): (vs: seq<Visit>)
      reads this
    {
      if status.AtEnd? || |stack| != |trees| then [] else if stack == [] then All() else Rest(stack, trees, path)
    }

    /** What the next step starts from: everything still to come, or what comes after the current subtree. */
    ghost function Goal(descend: bool): (vs: seq<Visit>)
      reads this
    {
      if status.AtEnd? || stack == [] || descend || |stack| != |trees| then Remaining()
      else
        var n := |stack| - 1;
        Rest(stack[..n], trees[..n], Cut(path, stack[n].pathlen))
    }

    ghost predicate Source() {
      && Stands(w, db, root, tree, true) && Canonical(tree)
      && rootHash == TrieRun.RootHash(w, tree) && emptyRoot == TrieRun.EmptyRoot(w)
    }

    ghost predicate Valid()
      reads this
    {
      && |stack| == |trees| && Source() && Fits(w, db, stack, trees, path) && Suffix(Remaining(), All())
      && (stack == [] && !status.AtEnd? ==> path == [])
      && (status.SeekFailed? && stack != [] ==> Less(path, Unpack(status.key)))
    }

    /** Nothing can be missing: all parts of the trie that are not in memory are in the database. */
    ghost predicate Whole()
      reads this
    {
      Backed(w, db, root, tree, true) && BackedFrames(w, db, stack, trees) && (status.Running? || status.AtEnd?)
    }

    /** The iteration cannot go on: the next node has to be loaded and is missing. */
    ghost predicate Stuck()
      reads this
    {
      (status.Failed? || status.SeekFailed?) && LostAt(w, db, Remaining(), status.missing)
    }

    /** The node the iterator stands on. */
    ghost function Current(): (v: Visit)
      reads this
      requires |stack| == |trees| && stack != []
    {
      Visit(path, trees[|trees| - 1])
    }

    method Pop()
      requires stack != [] && Fits(w, db, stack, trees, path)
      modifies this`stack, this`trees, this`path
      ensures stack == old(stack)[..|old(stack)| - 1] && trees == old(trees)[..|old(trees)| - 1]
      ensures path == Cut(old(path), old(stack)[|old(stack)| - 1].pathlen) && path <= old(path)
      ensures Fits(w, db, stack, trees, path)
      ensures BackedFrames(w, db, old(stack), old(trees)) ==> BackedFrames(w, db, stack, trees)
    {
      hide FrameOk;
      hide Backed;
      var top := stack[|stack| - 1];
      path := path[..top.pathlen];
      stack, trees := stack[..|stack| - 1], trees[..|trees| - 1];
    }

    /** The root as the first state. */
    method PeekRoot() returns (p: Peeked)
      requires Source() && stack == [] && trees == [] && path == []
      ensures p.Ready? ==> Fits(w, db, Pushed(stack, p.state), trees + [tree], p.path) && p.path == []
      ensures p.Ready? ==>
        p.state.index == -1 && All() == [Visit(p.path, tree)] + Rest(Pushed(stack, p.state), trees + [tree], p.path)
      ensures p.Lost? ==> LostAt(w, db, All(), p.h)
      ensures !p.Done?
      ensures Backed(w, db, root, tree, true) ==>
        p.Ready? && BackedFrames(w, db, Pushed(stack, p.state), trees + [tree])
    {
      hide Backed;
      hide BackedFrames;
      hide Stands;
      hide FrameOk;
      hide Pre;
      hide After;
      var state := Frame(if rootHash != emptyRoot then rootHash else ZeroHash(), root, ZeroHash(), -1, 0);
      RootFrame(w, db, root, tree, state.hash);
      LoadOk(w, db, state, tree, true);
      var f := Load(db, state);
      if Backed(w, db, root, tree, true) {
        LoadBacked(w, db, state, tree, true);
        BackedNone(w, db);
        BackedPush(w, db, [], [], f.value, tree);
      }
      if f.None? {
        RootLost(w, db, root, tree);
        return Lost(root.h);
      }
      PushFits(w, db, [], [], [], f.value, tree, []);
      assert [] + [f.value] == [f.value] == Pushed([], f.value);
      PreUnfold(tree, []);
      assert After(tree, [], -1) + [] == After(tree, [], -1);
      return Ready(f.value, []);
    }

    /** The child found under the top of the stack: its frame, or the hash that could not be loaded. */
    method PeekAt(c: Child, ghost ct: Tree, ancestor: Hash) returns (p: Peeked)
      requires Source() && Fits(w, db, stack, trees, path) && stack != [] && |stack| == |trees|
      requires ChildOk(w, db, trees[|trees| - 1], path, stack[|stack| - 1].index, c, ct)
      requires Backed(w, db, stack[|stack| - 1].node, trees[|trees| - 1], |stack| == 1) ==>
        Backed(w, db, c.node, ct, false)
      modifies this`stack
      ensures stack == SetIndex(old(stack), c.index) && Fits(w, db, stack, trees, path) && !p.Done?
      ensures Rest(stack, trees, path) == old(Rest(stack, trees, path))
      ensures p.Ready? ==> p.state.index == -1 && Fits(w, db, Pushed(stack, p.state), trees + [ct], p.path)
      ensures p.Ready? ==>
        Rest(stack, trees, path) == [Visit(p.path, ct)] + Rest(Pushed(stack, p.state), trees + [ct], p.path)
      ensures p.Lost? ==> LostAt(w, db, Rest(stack, trees, path), p.h)
      ensures BackedFrames(w, db, old(stack), trees) ==> BackedFrames(w, db, stack, trees) && !p.Lost?
      ensures BackedFrames(w, db, old(stack), trees) && p.Ready? ==>
        BackedFrames(w, db, Pushed(stack, p.state), trees + [ct])
    {
      hide Backed;
      hide BackedFrames;
      hide Stands;
      hide After;
      hide Fits;
      hide Rest;
      hide Pushed;
      hide ChildOk;
      hide FrameOk;
      var n := |stack| - 1;
      ghost var index, t, below := stack[n].index, trees[n], Rest(stack[..n], trees[..n], Cut(path, stack[n].pathlen));
      var state := Frame(HashField(c.node), c.node, ancestor, -1, |path|);
      ChildFrame(w, db, t, path, index, c, ct, state);
      var f := Load(db, state);
      StayPut(w, db, stack, trees, path, c, ct);
      if BackedFrames(w, db, stack, trees) {
        BackedPop(w, db, stack, trees);
        BackedStep(w, db, stack, trees, state, c, ct, path, index, t);
      }
      if f.Some? {
        PushChild(w, db, stack, trees, path, c, ct, f.value);
      } else {
        ChildLost(w, db, t, path, index, c, ct, below);
      }
      stack := SetIndex(stack, c.index);
      p := if f.Some? then Ready(f.value, c.path) else Lost(c.node.h);
    }

    /** The first child under the top of the stack that has one; exhausted frames are popped. */
    method PeekChild() returns (p: Peeked, ghost ct: Tree)
      requires Source() && Fits(w, db, stack, trees, path)
      modifies this`stack, this`trees, this`path
      ensures Fits(w, db, stack, trees, path)
      ensures Rest(stack, trees, path) == old(Rest(stack, trees, path))
      ensures p.Done? ==> stack == [] && Rest(stack, trees, path) == []
      ensures p.Ready? ==>
        stack != [] && p.state.index == -1 && Fits(w, db, Pushed(stack, p.state), trees + [ct], p.path)
      ensures p.Ready? ==>
        Rest(stack, trees, path) == [Visit(p.path, ct)] + Rest(Pushed(stack, p.state), trees + [ct], p.path)
      ensures p.Lost? ==> stack != [] && LostAt(w, db, Rest(stack, trees, path), p.h)
      ensures path <= old(path)
      ensures BackedFrames(w, db, old(stack), old(trees)) ==> BackedFrames(w, db, stack, trees) && !p.Lost?
      ensures BackedFrames(w, db, old(stack), old(trees)) && p.Ready? ==>
        BackedFrames(w, db, Pushed(stack, p.state), trees + [ct])
    {
      hide Backed;
      hide BackedFrames;
      hide Stands;
      hide After;
      hide Fits;
      hide Rest;
      hide Pushed;
      hide ChildOk;
      hide FrameOk;
      ct := Empty;
      FitsLength(w, db, stack, trees, path);
      while |stack| > 0
        invariant Fits(w, db, stack, trees, path) && |stack| == |trees| && path <= old(path)
        invariant Rest(stack, trees, path) == old(Rest(stack, trees, path))
        invariant BackedFrames(w, db, old(stack), old(trees)) ==> BackedFrames(w, db, stack, trees)
        decreases |stack|
      {
        FitsLength(w, db, stack, trees, path);
        RestTop(stack, trees, path);
        var n := |stack| - 1;
        var parent := stack[n];
        var ancestor := if parent.hash == ZeroHash() then parent.parent else parent.hash;
        var c;
        c, ct := NextChild(parent, path, w, db, trees[n], n == 0);
        if c.Some? {
          p := PeekAt(c.value, ct, ancestor);
          return;
        }
        assert [] + Rest(stack[..n], trees[..n], Cut(path, stack[n].pathlen)) ==
          Rest(stack[..n], trees[..n], Cut(path, stack[n].pathlen));
        Pop();
      }
      NoRest(path);
      assert stack == [] && trees == [];
      p := Done;
    }

    /** peek: the state the next step would push, without pushing it. */
    method Peek(descend: bool) returns (p: Peeked, ghost ct: Tree)
      requires Valid() && !status.AtEnd?
      modifies this`stack, this`trees, this`path
      ensures |stack| == |trees| && Fits(w, db, stack, trees, path) && path <= old(path)
      ensures old(stack) == [] ==> stack == []
      ensures p.Done? <==> old(Goal(descend)) == []
      ensures !p.Done? ==> Remaining() == old(Goal(descend)) && (stack == [] ==> path == [])
      ensures p.Ready? ==> p.state.index == -1 && Fits(w, db, Pushed(stack, p.state), trees + [ct], p.path)
      ensures p.Ready? ==>
        old(Goal(descend)) == [Visit(p.path, ct)] + Rest(Pushed(stack, p.state), trees + [ct], p.path)
      ensures p.Lost? ==> LostAt(w, db, old(Goal(descend)), p.h)
      ensures Suffix(old(Goal(descend)), All())
      ensures old(Whole()) ==> BackedFrames(w, db, stack, trees) && !p.Lost?
      ensures old(Whole()) && p.Ready? ==> BackedFrames(w, db, Pushed(stack, p.state), trees + [ct])
    {
      hide Backed;
      hide BackedFrames;
      hide Stands;
      hide After;
      hide FrameOk;
      hide Fits;
      hide Rest;
      hide Pushed;
      hide Pre;
      hide Suffix;
      hide Cut;
      hide Canonical;
      FitsLength(w, db, stack, trees, path);
      if stack == [] {
        ct := tree;
        p := PeekRoot();
        return;
      }
      GoalSuffix(w, db, stack, trees, path);
      SuffixTrans(Goal(descend), Remaining(), All());
      if !descend {
        Pop();
        FitsLength(w, db, stack, trees, path);
      }
      p, ct := PeekChild();
      FitsLength(w, db, stack, trees, path);
    }

    /** push: the peeked state becomes the current node. */
    method Push(p: Peeked, ghost ct: Tree)
      requires p.Ready? && |stack| == |trees| && Fits(w, db, Pushed(stack, p.state), trees + [ct], p.path)
      modifies this`stack, this`trees, this`path
      ensures stack == Pushed(old(stack), p.state) && trees == old(trees) + [ct] && path == p.path
      ensures stack[|stack| - 1] == p.state
      ensures Fits(w, db, stack, trees, path)
    {
      stack, trees, path := Pushed(stack, p.state), trees + [ct], p.path;
    }

    /** One round of seek. */
    method SeekStep(prefix: seq<byte>, key: Hex) returns (done: bool)
      requires Valid() && status.Running? && key == Unpack(prefix) && (stack != [] ==> Less(path, key))
      modifies this`stack, this`trees, this`path, this`status
      ensures Valid() && Passed(old(Remaining()), Remaining(), key)
      ensures !done ==> status.Running? && stack != [] && Less(path, key) && |Remaining()| < |old(Remaining())|
      ensures done ==> !status.Failed?
      ensures status.SeekFailed? ==> status.key == prefix && Stuck()
      ensures done && !status.SeekFailed? ==> forall x :: x in Remaining() ==> !Less(x.path, key)
      ensures old(Whole()) ==> Whole()
    {
      hide Backed;
      hide BackedFrames;
      hide LostAt;
      hide After;
      hide Stands;
      hide FrameOk;
      hide Fits;
      hide Rest;
      hide Pushed;
      hide Pre;
      hide Canonical;
      hide Less;
      hide Passed;
      hide Unpack;
      hide Cut;
      hide Suffix;
      var descend := path <= key;
      ghost var r, goal, at := Remaining(), Goal(descend), path;
      PassGoal(w, db, stack, trees, path, key, r, goal, All(), descend);
      PassedLength(r, goal, key);
      var p;
      ghost var ct;
      p, ct := Peek(descend);
      if stack != [] {
        LessPrefix(path, at, key);
      }
      if p.Done? {
        status := AtEnd;
        SuffixNone(All());
        return true;
      }
      if p.Lost? {
        status := SeekFailed(prefix, p.h);
        return true;
      }
      if !Less(p.path, key) {
        AllFrom(tree, goal, key);
        return true;
      }
      PassHead(r, goal, key);
      SuffixTail(goal, All());
      Push(p, ct);
      assert Remaining() == goal[1..];
      return false;
    }

    /**
     * seek: everything whose path is below the start key is passed over, and nothing else. A node
     * that cannot be loaded stops the search; it can be taken up again later.
     */
    method Seek(prefix: seq<byte>)
      requires Valid() && !status.AtEnd? && (stack != [] ==> Less(path, Unpack(prefix)))
      modifies this`stack, this`trees, this`path, this`status
      ensures Valid() && Passed(old(Remaining()), Remaining(), Unpack(prefix))
      ensures status.SeekFailed? ==> status.key == prefix && Stuck()
      ensures !status.SeekFailed? ==>
        (status.AtEnd? || status.Running?) && forall x :: x in Remaining() ==> !Less(x.path, Unpack(prefix))
      ensures old(Whole()) ==> Whole()
    {
      hide Backed;
      hide BackedFrames;
      hide Stands;
      hide Fits;
      hide Rest;
      hide Pre;
      hide Suffix;
      hide Canonical;
      hide Less;
      hide Passed;
      hide KeybytesToHex;
      hide Unpack;
      var key := KeybytesToHex(prefix);
      key := key[..|key| - 1];
      HexPrefix(prefix);
      ghost var r0 := Remaining();
      status := Running;
      PassNone(r0, key);
      var done := false;
      while !done
        invariant Valid() && Passed(r0, Remaining(), key)
        invariant !done ==> status.Running? && (stack != [] ==> Less(path, key))
        invariant done ==> !status.Failed?
        invariant status.SeekFailed? ==> status.key == prefix && Stuck()
        invariant done && !status.SeekFailed? ==> forall x :: x in Remaining() ==> !Less(x.path, key)
        invariant old(Whole()) ==> Whole()
        decreases if done then 0 else 1, |Remaining()|
      {
        ghost var r1 := Remaining();
        done := SeekStep(prefix, key);
        PassTrans(r0, r1, Remaining(), key);
      }
    }

    /**
     * Next: one step in pre-order, or past the current subtree. goal is what was left to visit just
     * before the step; an interrupted seek is completed first.
     */
    method Next(descend: bool) returns (ok: bool, ghost goal: seq<Visit>)
      requires Valid()
      modifies this`stack, this`trees, this`path, this`status
      ensures Valid()
      ensures !old(status.SeekFailed?) ==> goal == old(Goal(descend))
      ensures old(status.SeekFailed?) && descend ==>
        Passed(old(Remaining()), goal, Unpack(old(status).key)) &&
        (!status.SeekFailed? ==> forall x :: x in goal ==> !Less(x.path, Unpack(old(status).key)))
      ensures ok ==> stack != [] && goal != [] && Current() == goal[0] && Remaining() == goal[1..] && status.Running?
      ensures ok ==> Suffix(goal, All()) && stack[|stack| - 1].index == -1
      ensures !ok ==> Remaining() == goal || status.SeekFailed?
      ensures !ok && status.AtEnd? ==> goal == []
      ensures !ok ==> status.AtEnd? || Stuck()
      ensures status.SeekFailed? ==> old(status.SeekFailed?)
      ensures old(Whole()) ==> Whole()
    {
      hide Backed;
      hide BackedFrames;
      hide Stands;
      hide FrameOk;
      hide Fits;
      hide Rest;
      hide Pushed;
      hide Pre;
      hide Suffix;
      hide Canonical;
      hide Less;
      hide Passed;
      hide Unpack;
      hide Cut;
      hide LostAt;
      goal := Goal(descend);
      if status.AtEnd? {
        return false, goal;
      }
      if status.SeekFailed? {
        Seek(status.key);
        goal := Goal(descend);
        if !status.Running? {
          return false, goal;
        }
      }
      ok := Advance(descend);
    }

    /** The step itself: the peeked state is pushed, or the end or a missing node is noted. */
    method Advance(descend: bool) returns (ok: bool)
      requires Valid() && !status.AtEnd? && !status.SeekFailed?
      modifies this`stack, this`trees, this`path, this`status
      ensures ok ==> stack != [] && |stack| == |trees| && old(Goal(descend)) != [] && Current() == old(Goal(descend))[0]
      ensures ok ==> Remaining() == old(Goal(descend))[1..] && status.Running?
      ensures ok ==> Suffix(old(Goal(descend)), All()) && stack[|stack| - 1].index == -1
      ensures !ok ==> Remaining() == old(Goal(descend)) && !status.SeekFailed? && (status.AtEnd? || Stuck())
      ensures Valid() && (old(Whole()) ==> Whole())
    {
      hide Backed;
      hide BackedFrames;
      hide Stands;
      hide FrameOk;
      hide Fits;
      hide Rest;
      hide Pushed;
      hide Pre;
      hide Suffix;
      hide Canonical;
      hide Less;
      hide Unpack;
      hide Cut;
      hide LostAt;
      ghost var goal := Goal(descend);
      var p;
      ghost var ct;
      p, ct := Peek(descend);
      if p.Done? {
        status := AtEnd;
        SuffixNone(All());
        return false;
      }
      if p.Lost? {
        status := Failed(p.h);
        return false;
      }
      SuffixTail(goal, All());
      Push(p, ct);
      status := Running;
      return true;
    }

    /** newNodeIterator: positioned just before the first node whose path is not below the start key. */
    constructor (db: Db, root: Node, rootHash: Hash, emptyRoot: Hash, start: seq<byte>, ghost w: World, ghost t: Tree)
      requires Stands(w, db, root, t, true) && Canonical(t)
      requires rootHash == TrieRun.RootHash(w, t) && emptyRoot == TrieRun.EmptyRoot(w)
      ensures Valid() && tree == t && this.w == w && this.db == db && this.root == root
      ensures Passed(All(), Remaining(), Unpack(start))
      ensures !status.SeekFailed? ==> forall x :: x in Remaining() ==> !Less(x.path, Unpack(start))
      ensures status.SeekFailed? ==> status.key == start && Stuck()
      ensures !status.Failed?
      ensures Backed(w, db, root, t, true) ==> Whole()
    {
      hide Backed;
      hide BackedFrames;
      hide Stands;
      hide Canonical;
      hide Pre;
      hide After;
      hide Suffix;
      hide Less;
      hide Passed;
      hide NodeIterator.Stuck;
      this.db, this.root, this.rootHash, this.emptyRoot, this.w, this.tree := db, root, rootHash, emptyRoot, w, t;
      stack, trees, path, status := [], [], [], Running;
      new;
      BackedNone(w, db);
      SuffixSelf(All());
      Seek(start);
    }
  }

  /** The hash of no bytes at all is no trie's root. */
  lemma NotEmptyState(w: World, t: Tree)
    requires w.Valid() && Covers(w, t) && Canonical(t)
    ensures TrieRun.RootHash(w, t) != w.H([])
  {
    if Inner(t) {
      CoversEnc(w, t);
    }
  }

  /** newNodeIterator over a trie: its hash is computed first, so the states carry hashes where nodes have them. */
  method NewNodeIterator(trie: TrieRun.Trie, start: seq<byte>) returns (it: NodeIterator)
    requires trie.Valid()
    modifies trie`root, trie`db
    ensures trie.Valid() && trie.db == old(trie.db)
    ensures Backed(trie.w, trie.db, old(trie.root), trie.tree, true) ==>
      Backed(trie.w, trie.db, trie.root, trie.tree, true) && it.Whole()
    ensures fresh(it) && it.Valid() && it.tree == trie.tree && it.w == trie.w && it.db == trie.db
    ensures it.root == trie.root
    ensures Passed(it.All(), it.Remaining(), Unpack(start))
    ensures !it.status.SeekFailed? ==> forall x :: x in it.Remaining() ==> !Less(x.path, Unpack(start))
  {
    hide Less;
    hide Pre;
    hide Canonical;
    hide Fits;
    hide Rest;
    hide Backed;
    hide BackedFrames;
    hide Passed;
    hide Suffix;
    hide Unpack;
    hide LostAt;
    var h := trie.HashRoot(false);
    NotEmptyState(trie.w, trie.tree);
    if h == trie.w.H([]) {
      assert false;
    }
    it := new NodeIterator(trie.db, trie.root, h, TrieRun.EmptyRoot(trie.w), start, trie.w, trie.tree);
  }

  // ---- key-value iteration ----

  function Leaves(vs: seq<Visit>): (ls: seq<Visit>) {
    if vs == [] then [] else (if vs[0].tree.Leaf? then [vs[0]] else []) + Leaves(vs[1..])
  }

  /** All keys are whole bytes, as those of a trie filled through TryUpdate are. */
  ghost predicate ByteKeys(t: Tree) {
    forall h :: TermKey(h) && Lookup(t, h).Some? ==> |h| % 2 == 1
  }

  lemma {:induction false} LeavesMembers(vs: seq<Visit>, x: Visit)
    ensures x in Leaves(vs) <==> x in vs && x.tree.Leaf?
  {
    if vs != [] {
      LeavesMembers(vs[1..], x);
    }
  }

  /** A visited leaf: its path is the key, and the iterator's top node holds the value. */
  lemma LeafVisit(t: Tree, goal: seq<Visit>)
    requires Canonical(t) && ByteKeys(t) && Suffix(goal, Pre(t, [])) && goal != []
    ensures HasTerm(goal[0].path) <==> goal[0].tree.Leaf?
    ensures HasTerm(goal[0].path) ==> HexKey(goal[0].path) && |goal[0].path| % 2 == 1
    ensures goal[0] in Pre(t, [])
    ensures HasTerm(goal[0].path) ==> KeybytesToHex(HexToKeybytes(goal[0].path)) == goal[0].path
  {
    hide Canonical;
    hide Pre;
    hide Lookup;
    hide KeybytesToHex;
    hide HexToKeybytes;
    var all := Pre(t, []);
    assert goal[0] == all[|all| - |goal|];
    TermIsLeaf(t, goal[0]);
    if HasTerm(goal[0].path) {
      TrieRun.HexOfBytes(goal[0].path, HexToKeybytes(goal[0].path));
    }
  }

  lemma LeafValue(w: World, db: Db, fs: seq<Frame>, ts: seq<Tree>, path: Hex)
    requires Fits(w, db, fs, ts, path) && fs != [] && |fs| == |ts| && ts[|ts| - 1].Leaf?
    ensures fs[|fs| - 1].node == Val(ts[|ts| - 1].v)
  {
    hide Canonical;
    hide Covers;
    hide Sound;
  }

  /** The first leaf is yielded and the others are left; or there is none, or the search for it failed. */
  ghost predicate Yields(before: seq<Visit>, after: seq<Visit>, ok: bool, x: Visit, status: Status) {
    if ok then before != [] && before[0] == x && after == before[1..]
    else before == after && (before == [] || status.Failed?)
  }

  class Iterator {
    const nodeIt: NodeIterator
    var key: seq<byte>
    var value: seq<byte>

    constructor (it: NodeIterator)
      ensures nodeIt == it
    {
      nodeIt := it;
      key, value := [], [];
    }

    /** Next: the next stored pair; an interrupted seek is completed first. */
    method Next() returns (ok: bool)
      requires nodeIt.Valid() && ByteKeys(nodeIt.tree)
      modifies this, nodeIt`stack, nodeIt`trees, nodeIt`path, nodeIt`status
      ensures !old(nodeIt.status.SeekFailed?) ==>
        Yields(Leaves(old(nodeIt.Remaining())), Leaves(nodeIt.Remaining()), ok, Visit(KeybytesToHex(key), Leaf(value)),
          nodeIt.status)
      ensures ok ==> Visit(KeybytesToHex(key), Leaf(value)) in nodeIt.All() && nodeIt.status.Running?
      ensures !ok ==> nodeIt.status.AtEnd? || nodeIt.Stuck()
      ensures nodeIt.status.SeekFailed? ==> old(nodeIt.status.SeekFailed?)
      ensures nodeIt.Valid()
      ensures old(nodeIt.Whole()) ==> nodeIt.Whole()
    {
      hide Backed;
      hide BackedFrames;
      hide Stands;
      hide Fits;
      hide Rest;
      hide Pre;
      hide Suffix;
      hide Canonical;
      hide HexToKeybytes;
      hide KeybytesToHex;
      hide ByteKeys;
      hide HexKey;
      hide HasTerm;
      hide Passed;
      hide Less;
      hide LostAt;
      ghost var r0, seeking := nodeIt.Remaining(), nodeIt.status.SeekFailed?;
      var step := true;
      while step
        invariant nodeIt.Valid() && (nodeIt.status.SeekFailed? ==> seeking) && (old(nodeIt.Whole()) ==> nodeIt.Whole())
        invariant !seeking ==> Leaves(nodeIt.Remaining()) == Leaves(r0)
        invariant !step ==> nodeIt.status.AtEnd? || nodeIt.Stuck()
        invariant !step && !seeking ==> Leaves(r0) == [] || nodeIt.status.Failed?
        decreases if step then 1 else 0, |nodeIt.Remaining()|
      {
        ghost var goal;
        ghost var r1 := nodeIt.Remaining();
        ghost var s1 := nodeIt.status;
        step, goal := nodeIt.Next(true);
        if step {
          if s1.SeekFailed? {
            PassedLength(r1, goal, Unpack(s1.key));
          }
          LeafVisit(nodeIt.tree, goal);
          if HasTerm(nodeIt.path) {
            LeafValue(nodeIt.w, nodeIt.db, nodeIt.stack, nodeIt.trees, nodeIt.path);
            key := HexToKeybytes(nodeIt.path);
            value := nodeIt.stack[|nodeIt.stack| - 1].node.v;
            return true;
          }
        }
      }
      key, value := [], [];
      return false;
    }
  }
}
