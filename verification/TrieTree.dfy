/**
 * The fully resolved trie: what the in-memory nodes of proton/trie/trie.go stand for once
 * every hash node is followed and every cache flag is dropped. Insert and Delete take the
 * same branches as the source; here they are tied to finite maps and to the minimal form.
 */
module TrieTree {
  import opened Bytes
  import opened TrieEncoding

  datatype Tree = Empty | Leaf(v: seq<byte>) | Ext(key: Hex, sub: Tree) | Branch(subs: seq<Tree>)

  /** Two children at least: otherwise a full node would have to be a short node. */
  ghost predicate TwoPresent(subs: seq<Tree>) {
    exists i, j :: 0 <= i < j < |subs| && subs[i] != Empty && subs[j] != Empty
  }

  ghost predicate LeafSlot(t: Tree) {
    t == Empty || (t.Leaf? && t.v != [])
  }

  /** Minimal form: no short over short, no full node with one child, values only behind the terminator. */
  ghost predicate Canonical(t: Tree) {
    match t
    case Empty => true
    case Leaf(_) => false
    case Ext(k, c) =>
      if c.Leaf? then TermKey(k) && c.v != []
      else k != [] && Plain(k) && c.Branch? && Canonical(c)
    case Branch(subs) =>
      && |subs| == 17
      && (forall i :: 0 <= i < 16 ==> Canonical(subs[i]))
      && LeafSlot(subs[16])
      && TwoPresent(subs)
  }

  /** In minimal form, or a value in its place. */
  ghost predicate Minimal(t: Tree) {
    Canonical(t) || LeafSlot(t)
  }

  /** A subtree in minimal form, at a place where `key` is what remains of a full key. */
  ghost predicate At(t: Tree, key: Hex) {
    if key == [] then LeafSlot(t) else TermKey(key) && Canonical(t)
  }

  function Lookup(t: Tree, key: Hex): (r: Option<seq<byte>>) {
    match t
    case Empty => None
    case Leaf(v) => Some(v)
    case Ext(k, c) => if k <= key then Lookup(c, key[|k|..]) else None
    case Branch(subs) => if key != [] && key[0] < |subs| then Lookup(subs[key[0]], key[1..]) else None
  }

  /** The short node over c, or c itself where no key is left. */
  function Under(key: Hex, c: Tree): (t: Tree) {
    if key == [] then c else Ext(key, c)
  }

  /** Children with position i taken, if there is one. */
  function Put<T>(cs: seq<T>, i: nat, c: T): (r: seq<T>)
    ensures |r| == |cs|
  {
    if i < |cs| then cs[i := c] else cs
  }

  function NoSubs(): (subs: seq<Tree>)
    ensures |subs| == 17 && forall i :: 0 <= i < 17 ==> subs[i] == Empty
  {
    seq(17, _ => Empty)
  }

  /** Where a short node's key and a new key part ways. */
  function Fork(k: Hex, c: Tree, key: Hex, v: seq<byte>, m: nat): (t: Tree)
    requires m < |k| && m < |key|
  {
    var subs := Put(Put(NoSubs(), k[m], Under(k[m + 1..], c)), key[m], Under(key[m + 1..], Leaf(v)));
    if m == 0 then Branch(subs) else Ext(key[..m], Branch(subs))
  }

  /** insert. The two fallbacks stand for the source's panics; they are out of reach in minimal form. */
  function Insert(t: Tree, key: Hex, v: seq<byte>): (r: Tree) {
    if key == [] then Leaf(v)
    else
      match t
      case Empty => Ext(key, Leaf(v))
      case Leaf(_) => t
      case Ext(k, c) =>
        var m := PrefixLen(key, k);
        if m == |k| then Ext(k, Insert(c, key[m..], v))
        else if m < |key| then Fork(k, c, key, v, m)
        else t
      case Branch(subs) =>
        if key[0] < |subs| then Branch(subs[key[0] := Insert(subs[key[0]], key[1..], v)]) else t
  }

  /** Position of the only present child, -1 if there is none, -2 if there are two. */
  function Sole(present: seq<bool>): (pos: int)
    ensures pos >= 0 ==> pos < |present| && present[pos] && forall j :: 0 <= j < |present| && j != pos ==> !present[j]
    ensures pos == -1 ==> forall j :: 0 <= j < |present| ==> !present[j]
    ensures pos < -1 ==> exists i, j :: 0 <= i < j < |present| && present[i] && present[j]
  {
    SoleFrom(present, 0, -1)
  }

  function SoleFrom(present: seq<bool>, i: nat, pos: int): (r: int)
    requires i <= |present| && -1 <= pos < i
    requires pos >= 0 ==> present[pos]
    requires forall j :: 0 <= j < i && j != pos ==> !present[j]
    ensures r >= 0 ==> r < |present| && present[r] && forall j :: 0 <= j < |present| && j != r ==> !present[j]
    ensures r == -1 ==> forall j :: 0 <= j < |present| ==> !present[j]
    ensures r < -1 ==> r == -2 && exists i, j :: 0 <= i < j < |present| && present[i] && present[j]
    decreases |present| - i
  {
    if i == |present| then pos
    else if !present[i] then SoleFrom(present, i + 1, pos)
    else if pos == -1 then SoleFrom(present, i + 1, i)
    else -2
  }

  /** The child-counting loop of delete. */
  method SoleLoop(present: seq<bool>) returns (pos: int)
    ensures pos == Sole(present)
  {
    pos := -1;
    var i := 0;
    while i < |present|
      invariant 0 <= i <= |present| && -1 <= pos < i
      invariant pos >= 0 ==> present[pos]
      invariant forall j :: 0 <= j < i && j != pos ==> !present[j]
      invariant Sole(present) == SoleFrom(present, i, pos)
    {
      if present[i] {
        if pos == -1 {
          pos := i;
        } else {
          pos := -2;
          return;
        }
      }
      i := i + 1;
    }
  }

  function Present(subs: seq<Tree>): (p: seq<bool>)
    ensures |p| == |subs| && forall i :: 0 <= i < |p| ==> p[i] == (subs[i] != Empty)
  {
    seq(|subs|, i requires 0 <= i < |subs| => subs[i] != Empty)
  }

  /** Merging a short node with a short child. */
  function Merge(k: Hex, child: Tree): (t: Tree) {
    if child.Ext? then Ext(k + child.key, child.sub) else Ext(k, child)
  }

  /** A full node that lost a child becomes a short node if only one is left. */
  function Shrink(subs: seq<Tree>): (t: Tree) {
    var pos := Sole(Present(subs));
    if pos >= 0 then Single(pos % 256, subs[pos]) else Branch(subs)
  }

  /** The only child left, at position pos. */
  function Single(pos: byte, t: Tree): (r: Tree) {
    if pos != 16 then Merge([pos], t) else Ext([pos], t)
  }

  /** delete. A full node is only ever asked for the child a full key leads to. */
  function Delete(t: Tree, key: Hex): (r: Tree) {
    match t
    case Empty => t
    case Leaf(_) => Empty
    case Ext(k, c) =>
      var m := PrefixLen(key, k);
      if m < |k| then t
      else if m == |key| then Empty
      else
        var child := Delete(c, key[m..]);
        if child == c then t else Merge(k, child)
    case Branch(subs) =>
      if key != [] && key[0] < |subs| then
        var nn := Delete(subs[key[0]], key[1..]);
        if nn == subs[key[0]] then t else Shrink(subs[key[0] := nn])
      else t
  }

  // ---- minimal form is kept ----

  lemma TermDrop(key: Hex, m: nat)
    requires TermKey(key) && m < |key|
    ensures TermKey(key[m..])
  {}

  /** A prefix of a full key ends in the terminator exactly if it is the whole key. */
  lemma TermStop(k: Hex, key: Hex)
    requires TermKey(key) && k <= key && k != []
    ensures HasTerm(k) <==> |k| == |key|
  {
    assert k[|k| - 1] == key[|k| - 1];
  }

  lemma PrefixIff(k: Hex, key: Hex)
    ensures k <= key <==> PrefixLen(key, k) == |k|
  {
    hide PrefixLen;
    var m := PrefixLen(key, k);
    if m == |k| {
      assert k[..m] == k;
    }
  }

  /** A full key does not end inside the key of a short node. */
  lemma TurnInside(k: Hex, key: Hex, m: nat)
    requires HexKey(k) && TermKey(key) && m < |k| && m <= |key| && key[..m] == k[..m]
    ensures m < |key|
  {
    SamePrefix(key, k, m);
  }

  /** Going below a short node whose whole key matches. */
  lemma DescendAt(k: Hex, c: Tree, key: Hex)
    requires Canonical(Ext(k, c)) && TermKey(key)
    ensures k <= key <==> PrefixLen(key, k) == |k|
    ensures k <= key ==> At(c, key[|k|..]) && (c.Leaf? <==> |k| == |key|)
    ensures PrefixLen(key, k) < |k| ==> PrefixLen(key, k) < |key|
  {
    hide PrefixLen;
    PrefixIff(k, key);
    var m := PrefixLen(key, k);
    if k <= key {
      TermStop(k, key);
      if |k| < |key| {
        TermDrop(key, |k|);
      }
    } else {
      TurnInside(k, key, m);
    }
  }

  lemma SamePrefix(a: Hex, b: Hex, m: nat)
    requires m <= |a| && m <= |b| && a[..m] == b[..m]
    ensures forall i :: 0 <= i < m ==> a[i] == b[i]
  {
    assert forall i :: 0 <= i < m ==> a[..m][i] == b[..m][i];
  }

  lemma BranchAt(subs: seq<Tree>, key: Hex)
    requires Canonical(Branch(subs)) && TermKey(key)
    ensures At(subs[key[0]], key[1..])
  {}

  lemma BranchSet(subs: seq<Tree>, key: Hex, nn: Tree)
    requires Canonical(Branch(subs)) && TermKey(key) && At(nn, key[1..]) && nn != Empty
    ensures Canonical(Branch(subs[key[0] := nn]))
  {
    var i, j :| 0 <= i < j < |subs| && subs[i] != Empty && subs[j] != Empty;
    var s := subs[key[0] := nn];
    assert s[i] != Empty && s[j] != Empty;
  }

  /** What is left of a short node below position m may stand in the slot its key names there. */
  lemma SuffixSlot(k: Hex, c: Tree, m: nat)
    requires Canonical(Ext(k, c)) && m < |k|
    ensures k[m] <= 16 && Under(k[m + 1..], c) != Empty
    ensures if k[m] < 16 then Canonical(Under(k[m + 1..], c)) else LeafSlot(Under(k[m + 1..], c))
  {
    var s := k[m + 1..];
    if s == [] {
      assert c.Leaf? ==> k[m] == TERM;
    } else if c.Leaf? {
      assert TermKey(s);
    }
  }

  /** Two different slots filled, each with what may stand there. */
  lemma ForkSubs(x: nat, a: Tree, y: nat, b: Tree)
    requires x <= 16 && y <= 16 && x != y && a != Empty && b != Empty
    requires if x < 16 then Canonical(a) else LeafSlot(a)
    requires if y < 16 then Canonical(b) else LeafSlot(b)
    ensures Canonical(Branch(Put(Put(NoSubs(), x, a), y, b)))
  {
    var subs := Put(Put(NoSubs(), x, a), y, b);
    assert subs[x] == a && subs[y] == b;
    assert forall i :: 0 <= i < 17 && i != x && i != y ==> subs[i] == Empty;
    var lo, hi := if x < y then x else y, if x < y then y else x;
    assert subs[lo] != Empty && subs[hi] != Empty;
  }

  lemma ForkAt(k: Hex, c: Tree, key: Hex, v: seq<byte>, m: nat)
    requires Canonical(Ext(k, c)) && TermKey(key) && v != []
    requires m == PrefixLen(key, k) < |k|
    ensures m < |key|
    ensures Canonical(Fork(k, c, key, v, m))
  {
    hide PrefixLen;
    DescendAt(k, c, key);
    SamePrefix(key, k, m);
    SuffixSlot(k, c, m);
    assert Canonical(Ext(key, Leaf(v)));
    SuffixSlot(key, Leaf(v), m);
    ForkSubs(k[m], Under(k[m + 1..], c), key[m], Under(key[m + 1..], Leaf(v)));
    hide Under;
    assert m > 0 ==> Plain(key[..m]);
  }

  lemma MergeCanonical(k: Hex, child: Tree)
    requires k != [] && Plain(k) && Canonical(child) && child != Empty
    ensures Canonical(Merge(k, child)) && Merge(k, child) != Empty
  {
    if child.Ext? {
      var kk := k + child.key;
      assert forall i :: |k| <= i < |kk| ==> kk[i] == child.key[i - |k|];
    }
  }

  lemma ShrinkAt(subs: seq<Tree>, key: Hex, nn: Tree)
    requires Canonical(Branch(subs)) && TermKey(key) && At(nn, key[1..])
    ensures Canonical(Shrink(subs[key[0] := nn])) && Shrink(subs[key[0] := nn]) != Empty
  {
    var s := subs[key[0] := nn];
    var i, j :| 0 <= i < j < |subs| && subs[i] != Empty && subs[j] != Empty;
    assert s[i] != Empty || s[j] != Empty;
    ShrinkCanonical(s, if s[i] != Empty then i else j);
  }

  lemma ShrinkCanonical(s: seq<Tree>, k: nat)
    requires |s| == 17 && k < 17 && s[k] != Empty && LeafSlot(s[16])
    requires forall l :: 0 <= l < 16 ==> Canonical(s[l])
    ensures Canonical(Shrink(s)) && Shrink(s) != Empty
  {
    hide Sole;
    hide Merge;
    var p := Present(s);
    assert p[k];
    var pos := Sole(p);
    if 0 <= pos < 16 {
      MergeCanonical([pos], s[pos]);
    } else if pos < 0 {
      var x, y :| 0 <= x < y < |p| && p[x] && p[y];
      assert s[x] != Empty && s[y] != Empty;
    }
  }

  // ---- refinement of finite maps ----

  lemma UnderLookup(key: Hex, c: Tree, k': Hex)
    requires c.Leaf? || c.Branch?
    ensures Lookup(Under(key, c), k') == if key <= k' then Lookup(c, k'[|key|..]) else None
  {
    if key == [] {
      assert k'[0..] == k';
    }
  }

  /** Reading a fork: the common prefix, then the two slots. */
  lemma ForkRead(k: Hex, c: Tree, key: Hex, v: seq<byte>, m: nat, k': Hex)
    requires m < |k| && m < |key| && k[m] <= 16 && key[m] <= 16 && k[m] != key[m] && TermKey(k')
    ensures
      var f := Fork(k, c, key, v, m);
      Lookup(f, k') ==
      if !(key[..m] <= k') || m >= |k'| then None
      else if k'[m] == key[m] then Lookup(Under(key[m + 1..], Leaf(v)), k'[m + 1..])
      else if k'[m] == k[m] then Lookup(Under(k[m + 1..], c), k'[m + 1..])
      else None
  {
    hide Under;
    var a, b := Under(k[m + 1..], c), Under(key[m + 1..], Leaf(v));
    var subs := Put(Put(NoSubs(), k[m], a), key[m], b);
    assert subs[key[m]] == b && subs[k[m]] == a;
    if key[..m] <= k' && m < |k'| {
      assert k'[m..][0] == k'[m] && k'[m..][1..] == k'[m + 1..];
      assert m == 0 ==> k'[0..] == k';
      assert Lookup(Branch(subs), k'[m..]) == Lookup(subs[k'[m]], k'[m + 1..]);
    }
  }

  /** Reading a fork, in terms of the two keys it was made from. */
  lemma ForkKeys(k: Hex, c: Tree, key: Hex, v: seq<byte>, m: nat, k': Hex)
    requires m < |k| && m < |key| && k[m] <= 16 && key[m] <= 16 && k[m] != key[m] && TermKey(k')
    requires key[..m] == k[..m] && (c.Leaf? || c.Branch?)
    ensures Lookup(Fork(k, c, key, v, m), k') ==
      if key <= k' then Some(v) else if k <= k' then Lookup(c, k'[|k|..]) else None
  {
    ForkRead(k, c, key, v, m, k');
    PrefixCut(key, k', m);
    PrefixCut(k, k', m);
    if m < |k'| {
      UnderLookup(k[m + 1..], c, k'[m + 1..]);
      UnderLookup(key[m + 1..], Leaf(v), k'[m + 1..]);
    }
    hide Fork;
    hide Under;
  }

  lemma ForkLookup(k: Hex, c: Tree, key: Hex, v: seq<byte>, m: nat, k': Hex)
    requires Canonical(Ext(k, c)) && TermKey(key) && TermKey(k') && v != []
    requires m == PrefixLen(key, k) < |k| && m < |key|
    ensures Lookup(Fork(k, c, key, v, m), k') == if k' == key then Some(v) else Lookup(Ext(k, c), k')
  {
    hide PrefixLen;
    hide Fork;
    SuffixSlot(k, c, m);
    ForkKeys(k, c, key, v, m, k');
    if key <= k' {
      TermPrefix(key, k');
    }
  }

  /** Being a prefix, split at position m. */
  lemma PrefixCut(a: Hex, b: Hex, m: nat)
    requires m < |a|
    ensures a <= b <==> a[..m] <= b && m < |b| && b[m] == a[m] && a[m + 1..] <= b[m + 1..]
    ensures a <= b ==> b[|a|..] == b[m + 1..][|a| - m - 1..]
  {
    assert a == a[..m] + [a[m]] + a[m + 1..];
    if a[..m] <= b && m < |b| && b[m] == a[m] && a[m + 1..] <= b[m + 1..] {
      assert b == b[..m] + [b[m]] + b[m + 1..];
    }
  }

  /** One full key extends the other only if they are equal. */
  lemma TermPrefix(a: Hex, b: Hex)
    requires TermKey(a) && TermKey(b) && a <= b
    ensures a == b
  {
    assert b[|a| - 1] == TERM;
  }

  /** Two keys of the same place: both used up, or both full. */
  ghost predicate SamePlace(a: Hex, b: Hex) {
    if a == [] then b == [] else TermKey(a) && TermKey(b)
  }

  /** Below a short node, matching keys stay in the same place. */
  lemma DescendSame(k: Hex, c: Tree, key: Hex, k': Hex)
    requires Canonical(Ext(k, c)) && TermKey(key) && TermKey(k') && k <= key && k <= k'
    ensures At(c, key[|k|..]) && SamePlace(key[|k|..], k'[|k|..])
  {
    hide PrefixLen;
    DescendAt(k, c, key);
    DescendAt(k, c, k');
  }

  lemma RestEqual(k: Hex, a: Hex, b: Hex)
    requires k <= a && k <= b
    ensures a == b <==> a[|k|..] == b[|k|..]
  {
    assert a == k + a[|k|..] && b == k + b[|k|..];
  }

  /** Insertion keeps the minimal form. */
  lemma {:induction false} InsertCanonical(t: Tree, key: Hex, v: seq<byte>)
    requires At(t, key) && v != []
    ensures At(Insert(t, key, v), key) && Insert(t, key, v) != Empty
    ensures t.Branch? ==> Insert(t, key, v).Branch?
  {
    hide PrefixLen;
    if key != [] && t.Ext? {
      var m := PrefixLen(key, t.key);
      DescendAt(t.key, t.sub, key);
      if m == |t.key| {
        InsertCanonical(t.sub, key[m..], v);
      } else {
        ForkAt(t.key, t.sub, key, v, m);
      }
    } else if key != [] && t.Branch? {
      InsertCanonical(t.subs[key[0]], key[1..], v);
      BranchSet(t.subs, key, Insert(t.subs[key[0]], key[1..], v));
    }
  }

  /** Insertion is the map update. */
  lemma {:induction false} InsertLookup(t: Tree, key: Hex, v: seq<byte>, k': Hex)
    requires At(t, key) && v != [] && SamePlace(key, k')
    ensures Lookup(Insert(t, key, v), k') == if k' == key then Some(v) else Lookup(t, k')
  {
    hide PrefixLen;
    hide Fork;
    if key == [] {
    } else if t.Empty? {
      if key <= k' {
        TermPrefix(key, k');
      }
    } else if t.Ext? {
      var m := PrefixLen(key, t.key);
      DescendAt(t.key, t.sub, key);
      if m < |t.key| {
        ForkLookup(t.key, t.sub, key, v, m, k');
      } else if t.key <= k' {
        DescendSame(t.key, t.sub, key, k');
        InsertLookup(t.sub, key[m..], v, k'[m..]);
        RestEqual(t.key, key, k');
      }
    } else {
      var x := key[0];
      if k'[0] == x {
        InsertLookup(t.subs[x], key[1..], v, k'[1..]);
        RestEqual([x], key, k');
      }
    }
  }

  lemma PrefixConcat(a: Hex, b: Hex, key: Hex)
    ensures a + b <= key <==> a <= key && b <= key[|a|..]
    ensures a + b <= key ==> key[|a + b|..] == key[|a|..][|b|..]
  {
    if a <= key {
      assert key == a + key[|a|..];
    }
  }

  lemma MergeLookup(k: Hex, child: Tree, k': Hex)
    requires k != []
    ensures Lookup(Merge(k, child), k') == if k <= k' then Lookup(child, k'[|k|..]) else None
  {
    if child.Ext? {
      PrefixConcat(k, child.key, k');
    }
  }

  lemma ShrinkLookup(subs: seq<Tree>, k': Hex)
    requires |subs| == 17 && TermKey(k')
    ensures Lookup(Shrink(subs), k') == Lookup(subs[k'[0]], k'[1..])
  {
    hide Sole;
    hide Merge;
    var pos := Sole(Present(subs));
    if pos >= 0 {
      SoleLookup(subs, pos, k');
    }
  }

  lemma SoleLookup(subs: seq<Tree>, pos: byte, k': Hex)
    requires |subs| == 17 && TermKey(k') && pos < 17 && forall j :: 0 <= j < 17 && j != pos ==> subs[j] == Empty
    ensures Lookup(Merge([pos], subs[pos]), k') == Lookup(subs[k'[0]], k'[1..])
    ensures Lookup(Ext([pos], subs[pos]), k') == Lookup(subs[k'[0]], k'[1..])
  {
    MergeLookup([pos], subs[pos], k');
    assert [pos] <= k' <==> k'[0] == pos;
  }

  /** Deletion keeps the minimal form, and a full node is never reduced to nothing. */
  lemma {:induction false} DeleteCanonical(t: Tree, key: Hex)
    requires At(t, key)
    ensures At(Delete(t, key), key)
    ensures t.Branch? ==> Delete(t, key) != Empty
  {
    hide PrefixLen;
    hide Shrink;
    if t.Ext? {
      var m := PrefixLen(key, t.key);
      DescendAt(t.key, t.sub, key);
      if m == |t.key| < |key| {
        var child := Delete(t.sub, key[m..]);
        DeleteCanonical(t.sub, key[m..]);
        MergeCanonical(t.key, child);
      }
    } else if t.Branch? {
      DeleteCanonical(t.subs[key[0]], key[1..]);
      ShrinkAt(t.subs, key, Delete(t.subs[key[0]], key[1..]));
    }
  }

  /** Deletion is the map removal. */
  lemma {:induction false} DeleteLookup(t: Tree, key: Hex, k': Hex)
    requires At(t, key) && SamePlace(key, k')
    ensures Lookup(Delete(t, key), k') == if k' == key then None else Lookup(t, k')
  {
    hide PrefixLen;
    hide Shrink;
    hide Merge;
    if t.Ext? {
      var k, m := t.key, PrefixLen(key, t.key);
      DescendAt(k, t.sub, key);
      if m == |key| == |k| {
        assert key == k;
        if k <= k' {
          TermPrefix(k, k');
        }
      } else if m == |k| {
        var child := Delete(t.sub, key[m..]);
        MergeLookup(k, child, k');
        if k <= k' {
          DescendSame(k, t.sub, key, k');
          DeleteLookup(t.sub, key[m..], k'[m..]);
          RestEqual(k, key, k');
        }
      }
    } else if t.Branch? {
      var x := key[0];
      var nn := Delete(t.subs[x], key[1..]);
      ShrinkLookup(t.subs[x := nn], k');
      if k'[0] == x {
        DeleteLookup(t.subs[x], key[1..], k'[1..]);
        RestEqual([x], key, k');
      }
    }
  }

  // ---- the minimal form is unique ----

  /** Every nonempty subtree in minimal form holds some key. */
  lemma {:induction false} SomeKey(t: Tree) returns (k: Hex)
    requires Canonical(t) && t != Empty
    ensures TermKey(k) && Lookup(t, k).Some?
  {
    if t.Ext? {
      if t.sub.Leaf? {
        k := t.key;
      } else {
        var r := SomeKey(t.sub);
        k := t.key + r;
        TermJoin(t.key, r);
      }
    } else {
      var i, j :| 0 <= i < j < |t.subs| && t.subs[i] != Empty && t.subs[j] != Empty;
      k := SlotKey(t.subs, i);
    }
  }

  /** A key that starts with the nibble of a given child. */
  lemma {:induction false} SlotKey(subs: seq<Tree>, i: nat) returns (k: Hex)
    requires Canonical(Branch(subs)) && i < 17 && subs[i] != Empty
    ensures TermKey(k) && k[0] == i && Lookup(Branch(subs), k).Some?
    decreases subs, i
  {
    if i == 16 {
      k := [16];
    } else {
      var r := SomeKey(subs[i]);
      k := [i] + r;
      TermJoin([i], r);
    }
  }

  /** A full node has a key that leaves any given nibble. */
  lemma OtherKey(subs: seq<Tree>, x: byte) returns (k: Hex)
    requires Canonical(Branch(subs))
    ensures TermKey(k) && k[0] != x && Lookup(Branch(subs), k).Some?
  {
    var i, j :| 0 <= i < j < |subs| && subs[i] != Empty && subs[j] != Empty;
    k := SlotKey(subs, if i == x then j else i);
  }

  /** The two trees hold the same map. */
  ghost predicate Agree(a: Tree, b: Tree) {
    forall k :: TermKey(k) ==> Lookup(a, k) == Lookup(b, k)
  }

  lemma TermJoin(k: Hex, r: Hex)
    requires Plain(k) && TermKey(r)
    ensures TermKey(k + r) && (k + r)[|k|..] == r
  {
    var f := k + r;
    assert forall i :: |k| <= i < |f| ==> f[i] == r[i - |k|];
  }

  /** All keys held below a short node start with its key. */
  lemma ShortKeys(k: Hex, c: Tree, b: Tree, f: Hex)
    requires Agree(Ext(k, c), b) && TermKey(f) && Lookup(b, f).Some?
    ensures k <= f
  {
    assert Lookup(Ext(k, c), f).Some?;
  }

  /** Whatever agrees with a short node is a short node, and its key is at least as long. */
  lemma ShortKeyCovers(k: Hex, c: Tree, b: Tree)
    requires Canonical(Ext(k, c)) && Canonical(b) && Agree(Ext(k, c), b)
    ensures b.Ext? && k <= b.key
  {
    var w := SomeKey(Ext(k, c));
    assert Lookup(b, w).Some?;
    if b.Branch? {
      var o := OtherKey(b.subs, k[0]);
      ShortKeys(k, c, b, o);
      assert false;
    } else if b.sub.Leaf? {
      ShortKeys(k, c, b, b.key);
    } else if !(k <= b.key) {
      var d := |b.key|;
      ShortKeys(k, c, b, w);
      Shorter(k, b.key, w);
      var o := OtherKey(b.sub.subs, k[d]);
      TermJoin(b.key, o);
      ShortKeys(k, c, b, b.key + o);
      assert false;
    }
  }

  lemma Shorter(a: Hex, b: Hex, w: Hex)
    requires a <= w && b <= w && !(a <= b)
    ensures |b| < |a|
  {
  }

  /** Trees in minimal form that hold the same map are the same tree. */
  lemma {:induction false} CanonicalUnique(a: Tree, b: Tree)
    requires Canonical(a) && Canonical(b) && Agree(a, b)
    ensures a == b
    decreases a
  {
    if a == Empty || b == Empty {
      if a != Empty {
        var k := SomeKey(a);
      } else if b != Empty {
        var k := SomeKey(b);
      }
    } else if a.Ext? {
      ShortKeyCovers(a.key, a.sub, b);
      ShortKeyCovers(b.key, b.sub, a);
      assert a.key == b.key;
      SubsAgree(a.key, a.sub, b.sub);
      if a.sub.Leaf? {
        assert Lookup(a, a.key) == Some(a.sub.v);
        assert Lookup(b, a.key) == if b.sub.Leaf? then Some(b.sub.v) else None;
      } else {
        CanonicalUnique(a.sub, b.sub);
      }
    } else if b.Ext? {
      ShortKeyCovers(b.key, b.sub, a);
    } else {
      forall i | 0 <= i < 17
        ensures a.subs[i] == b.subs[i]
      {
        if i == 16 {
          LastSlot(a.subs, b.subs);
        } else {
          SlotsAgree(a.subs, b.subs, i);
          CanonicalUnique(a.subs[i], b.subs[i]);
        }
      }
      assert a.subs == b.subs;
    }
  }

  lemma SubsAgree(k: Hex, c: Tree, d: Tree)
    requires Canonical(Ext(k, c)) && Canonical(Ext(k, d)) && Agree(Ext(k, c), Ext(k, d))
    ensures c.Leaf? <==> d.Leaf?
    ensures c.Branch? ==> Agree(c, d)
  {
    if c.Branch? {
      assert d.Branch?;
      forall r | TermKey(r)
        ensures Lookup(c, r) == Lookup(d, r)
      {
        var f := k + r;
        TermJoin(k, r);
        assert Lookup(Ext(k, c), f) == Lookup(Ext(k, d), f);
      }
    }
  }

  lemma LastSlot(xs: seq<Tree>, ys: seq<Tree>)
    requires |xs| == 17 && |ys| == 17 && LeafSlot(xs[16]) && LeafSlot(ys[16]) && Agree(Branch(xs), Branch(ys))
    ensures xs[16] == ys[16]
  {
    var k: Hex := [16];
    assert TermKey(k);
    assert Lookup(Branch(xs), k) == Lookup(xs[16], k[1..]);
    assert Lookup(Branch(ys), k) == Lookup(ys[16], k[1..]);
  }

  lemma SlotsAgree(xs: seq<Tree>, ys: seq<Tree>, i: byte)
    requires i < 16 && |xs| == 17 && |ys| == 17 && Agree(Branch(xs), Branch(ys))
    ensures Agree(xs[i], ys[i])
  {
    forall r | TermKey(r)
      ensures Lookup(xs[i], r) == Lookup(ys[i], r)
    {
      var f: Hex := [i] + r;
      TermJoin([i], r);
      assert Lookup(Branch(xs), f) == Lookup(Branch(ys), f);
    }
  }

  /** Deleting an absent key changes nothing. */
  lemma DeleteAbsent(t: Tree, key: Hex)
    requires At(t, key)
    ensures Delete(t, key) == t <==> Lookup(t, key).None?
  {
    if key != [] {
      DeleteCanonical(t, key);
      forall k | TermKey(k)
        ensures Lookup(Delete(t, key), k) == if k == key then None else Lookup(t, k)
      {
        DeleteLookup(t, key, k);
      }
      if Lookup(t, key).None? {
        CanonicalUnique(Delete(t, key), t);
      }
    }
  }
}
