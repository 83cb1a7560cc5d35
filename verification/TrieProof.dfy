/** Merkle proofs (proton/trie/proof.go): Prove collects the nodes on a path, VerifyProof follows hashes. */
module TrieProof {
  import opened Bytes
  import opened Rlp
  import opened TrieEncoding
  import opened TrieTree
  import opened TrieNode
  import opened TrieLazy
  import opened TrieHasher
  import opened TrieRun

  /** The inner nodes met on the way to a key; if the key is absent, the last one shows it. */
  function PathTrees(t: Tree, key: Hex): (ts: seq<Tree>) {
    if key == [] then []
    else
      match t
      case Ext(k, c) => [t] + if k <= key then PathTrees(c, key[|k|..]) else []
      case Branch(subs) => [t] + if key[0] < |subs| then PathTrees(subs[key[0]], key[1..]) else []
      case _ => []
  }

  /** Those with an entry of their own: the first, and every one of 32 bytes and more. */
  function Elements(w: World, ts: seq<Tree>): (es: seq<Tree>) {
    if ts == [] then []
    else
      var n := |ts| - 1;
      Elements(w, ts[..n]) + if n == 0 || Large(w, ts[n]) then [ts[n]] else []
  }

  function Entries(w: World, ts: seq<Tree>): (db: Db) {
    if ts == [] then map[]
    else
      var s := ts[|ts| - 1];
      Entries(w, ts[..|ts| - 1])[NodeHash(w, s) := Enc(w, s)]
  }

  function Skip<T>(s: seq<T>, n: nat): (r: seq<T>) {
    if n <= |s| then s[n..] else []
  }

  /** The proof for a key, without its first `level` elements. */
  function ProofOf(w: World, t: Tree, key: Hex, level: nat): (db: Db) {
    Entries(w, Skip(Elements(w, PathTrees(t, key)), level))
  }

  // ---- Prove ----

  /** Collected nodes stand for the trees on the path, the first one as a root. */
  ghost predicate RepPath(w: World, ns: seq<Node>, ts: seq<Tree>) {
    && |ns| == |ts|
    && forall i :: 0 <= i < |ns| ==> (ns[i].Short? || ns[i].Full?) && Rep(w, ns[i], ts[i], i == 0)
  }

  /** One step down from a loaded node: the child the key leads to, or nil on a mismatch. */
  function DownN(n: Node, k: Hex): (r: (Node, Hex))
    requires n.Short? || n.Full?
  {
    match n
    case Short(nk, val, _) => if nk <= k then (val, k[|nk|..]) else (Nil, k)
    case Full(cs, _) => if k != [] && k[0] < |cs| then (cs[k[0]], k[1..]) else (Nil, k)
  }

  function DownT(t: Tree, k: Hex): (r: (Tree, Hex))
    requires Inner(t)
  {
    match t
    case Ext(tk, c) => if tk <= k then (c, k[|tk|..]) else (Empty, k)
    case Branch(subs) => if k != [] && k[0] < |subs| then (subs[k[0]], k[1..]) else (Empty, k)
  }

  /** Going down keeps the node and the tree in step, and the key where it is. */
  ghost predicate DownOk(w: World, db: Db, n: Node, t: Tree, k: Hex)
    requires (n.Short? || n.Full?) && Inner(t)
  {
    var (n', k'), (t', kt) := DownN(n, k), DownT(t, k);
    && k' == kt && Stands(w, db, n', t', false) && At(t', k') && Lookup(t, k) == Lookup(t', k')
    && (n' != Nil ==> t' < t)
  }

  lemma DownStands(w: World, db: Db, n: Node, t: Tree, root: bool, k: Hex)
    requires Stands(w, db, n, t, root) && At(t, k) && k != [] && n != Nil && !n.HashN?
    ensures (n.Short? || n.Full?) && Inner(t) && Rep(w, n, t, root) && DownOk(w, db, n, t, k)
  {
    if n.Short? {
      DownShort(w, db, n, t, root, k);
    } else {
      DownFull(w, db, n, t, root, k);
    }
  }

  lemma DownShort(w: World, db: Db, n: Node, t: Tree, root: bool, k: Hex)
    requires Stands(w, db, n, t, root) && At(t, k) && k != [] && n.Short?
    ensures t.Ext? && DownOk(w, db, n, t, k)
  {
    StandsShort(w, db, n, t, root);
    DescendAt(n.key, t.sub, k);
    assert Stands(w, db, Nil, Empty, false);
    hide Stands;
  }

  lemma DownFull(w: World, db: Db, n: Node, t: Tree, root: bool, k: Hex)
    requires Stands(w, db, n, t, root) && At(t, k) && k != [] && n.Full?
    ensures t.Branch? && DownOk(w, db, n, t, k)
  {
    StandsFull(w, db, n, t, root, k[0]);
    BranchAt(t.subs, k);
    hide Stands;
  }

  lemma NilIsEmpty(w: World, db: Db, t: Tree, root: bool)
    requires Stands(w, db, Nil, t, root)
    ensures t == Empty
  {}

  lemma DownPath(t: Tree, k: Hex)
    requires Inner(t) && k != []
    ensures PathTrees(t, k) == [t] + PathTrees(DownT(t, k).0, DownT(t, k).1)
  {}

  lemma RepPathSnoc(w: World, ns: seq<Node>, ts: seq<Tree>, n: Node, t: Tree)
    requires RepPath(w, ns, ts) && (n.Short? || n.Full?) && Rep(w, n, t, ts == [])
    ensures RepPath(w, ns + [n], ts + [t])
  {
    hide Rep;
  }

  /** The first loop of Prove: walk down to the key, loading nodes as needed. */
  method CollectPath(db: Db, root: Node, key: Hex, ghost w: World, ghost t: Tree) returns (r: Result<seq<Node>, Hash>)
    requires Stands(w, db, root, t, true) && At(t, key)
    ensures r.Err? ==> r.error !in db
    ensures r.Ok? ==> RepPath(w, r.value, PathTrees(t, key))
  {
    hide Stands;
    hide At;
    hide DownOk;
    hide DownN;
    hide DownT;
    hide Rep;
    hide RepPath;
    hide PathTrees;
    assert RepPath(w, [], []) by { NoPath(w); }
    assert [] + PathTrees(t, key) == PathTrees(t, key);
    var tn, k, nodes := root, key, [];
    ghost var s, ts := t, [];
    while |k| > 0 && tn != Nil
      invariant Stands(w, db, tn, s, ts == []) && At(s, k)
      invariant RepPath(w, nodes, ts)
      invariant PathTrees(t, key) == ts + PathTrees(s, k)
      decreases if tn == Nil then 0 else 1, s, if tn.HashN? then 1 else 0
    {
      if tn.HashN? {
        if tn.h !in db {
          return Err(tn.h);
        }
        ResolveStands(w, db, tn.h, s, ts == []);
        tn := Resolve(db, tn.h).value;
      } else {
        WalkStep(w, db, tn, s, k, nodes, ts);
        var (n', k') := DownN(tn, k);
        ghost var s' := DownT(s, k).0;
        nodes, ts := nodes + [tn], ts + [s];
        tn, s, k := n', s', k';
      }
    }
    if tn == Nil {
      NilIsEmpty(w, db, s, ts == []);
    }
    PathEnd(s, k);
    assert ts + [] == ts;
    return Ok(nodes);
  }

  lemma NoPath(w: World)
    ensures RepPath(w, [], [])
  {}

  lemma PathEnd(t: Tree, k: Hex)
    requires k == [] || t == Empty
    ensures PathTrees(t, k) == []
  {}

  /** One round of the walk: the node is collected, and the rest of the path starts at the child. */
  lemma WalkStep(w: World, db: Db, n: Node, t: Tree, k: Hex, ns: seq<Node>, ts: seq<Tree>)
    requires Stands(w, db, n, t, ts == []) && At(t, k) && k != [] && n != Nil && !n.HashN? && RepPath(w, ns, ts)
    ensures (n.Short? || n.Full?) && Inner(t) && RepPath(w, ns + [n], ts + [t])
    ensures DownN(n, k).1 == DownT(t, k).1
    ensures Stands(w, db, DownN(n, k).0, DownT(t, k).0, false) && At(DownT(t, k).0, DownT(t, k).1)
    ensures ts + PathTrees(t, k) == ts + [t] + PathTrees(DownT(t, k).0, DownT(t, k).1)
    ensures DownN(n, k).0 != Nil ==> DownT(t, k).0 < t
  {
    hide Stands;
    hide At;
    hide RepPath;
    hide PathTrees;
    hide Rep;
    hide Lookup;
    hide DownN;
    hide DownT;
    DownStands(w, db, n, t, ts == [], k);
    DownPath(t, k);
    RepPathSnoc(w, ns, ts, n, t);
    var rest := PathTrees(DownT(t, k).0, DownT(t, k).1);
    assert ts + ([t] + rest) == ts + [t] + rest;
  }

  lemma DownParts(w: World, db: Db, n: Node, t: Tree, k: Hex)
    requires (n.Short? || n.Full?) && Inner(t) && DownOk(w, db, n, t, k)
    ensures DownN(n, k).1 == DownT(t, k).1
    ensures Stands(w, db, DownN(n, k).0, DownT(t, k).0, false) && At(DownT(t, k).0, DownT(t, k).1)
    ensures Lookup(t, k) == Lookup(DownT(t, k).0, DownT(t, k).1)
    ensures DownN(n, k).0 != Nil ==> DownT(t, k).0 < t
  {
    hide Stands;
    hide At;
    hide Lookup;
    hide DownN;
    hide DownT;
  }

  /** Everything on the path is in minimal form and covered. */
  lemma {:induction false} PathFacts(w: World, t: Tree, key: Hex)
    requires Covers(w, t) && At(t, key)
    ensures forall s :: s in PathTrees(t, key) ==> Inner(s) && Canonical(s) && Covers(w, s)
  {
    if key != [] && t.Ext? {
      DescendAt(t.key, t.sub, key);
      if t.key <= key {
        PathFacts(w, t.sub, key[|t.key|..]);
      }
    } else if key != [] && t.Branch? {
      PathFacts(w, t.subs[key[0]], key[1..]);
    }
  }

  lemma PathStands(w: World, db: Db, root: Node, t: Tree, key: Hex, ns: seq<Node>)
    requires Stands(w, db, root, t, true) && At(t, key) && RepPath(w, ns, PathTrees(t, key))
    ensures StandAll(w, db, ns, PathTrees(t, key))
  {
    PathFacts(w, t, key);
    hide Rep;
    hide Covers;
    hide Canonical;
  }

  /** Collapsing and storing one node of the path, without forcing and without a database. */
  lemma ElementOf(w: World, db: Db, n: Node, t: Tree, root: bool)
    requires Stands(w, db, n, t, root) && (n.Short? || n.Full?)
    ensures
      var raw := HashChildren(w, n, db, false).raw;
      var st := Store(w, raw, n.flag.hash, db, false, false).0;
      && Inner(t) && Encode(RawItem(raw)) == Enc(w, t)
      && (st.RHash? <==> Large(w, t)) && (st.RHash? ==> st.h == NodeHash(w, t))
  {
    ChildrenCorrect(w, n, t, db, false, root);
    StoreShape(w, t, n.flag.hash, db, false, false);
    CollapseItem(w, t);
    hide HashChildren;
    hide Store;
    hide Stands;
  }

  /** Prove: the proof elements from the given level on, each under its hash. */
  method Prove(w: World, db: Db, root: Node, key: Key, fromLevel: nat, ghost t: Tree) returns (r: Result<Db, Hash>)
    requires Stands(w, db, root, t, true) && Canonical(t)
    ensures r.Err? ==> r.error !in db
    ensures r.Ok? ==> r.value == ProofOf(w, t, KeybytesToHex(key), fromLevel)
  {
    var k := KeybytesToHex(key);
    var nodes := CollectPath(db, root, k, w, t);
    if nodes.Err? {
      return Err(nodes.error);
    }
    PathStands(w, db, root, t, k, nodes.value);
    var proof := WriteElements(w, db, nodes.value, fromLevel, PathTrees(t, k));
    return Ok(proof);
  }

  ghost predicate StandAll(w: World, db: Db, ns: seq<Node>, ts: seq<Tree>) {
    && |ns| == |ts|
    && forall i :: 0 <= i < |ns| ==> (ns[i].Short? || ns[i].Full?) && Stands(w, db, ns[i], ts[i], i == 0)
  }

  /** The second loop of Prove: hash each collected node and keep those that have an entry of their own. */
  method WriteElements(w: World, db: Db, nodes: seq<Node>, fromLevel: nat, ghost ts: seq<Tree>) returns (proof: Db)
    requires StandAll(w, db, nodes, ts)
    ensures proof == Entries(w, Skip(Elements(w, ts), fromLevel))
  {
    hide Stands;
    hide HashChildren;
    hide Store;
    hide Enc;
    var level := fromLevel;
    proof := map[];
    for i := 0 to |nodes|
      invariant proof == Entries(w, Skip(Elements(w, ts[..i]), fromLevel))
      invariant level == if fromLevel <= |Elements(w, ts[..i])| then 0 else fromLevel - |Elements(w, ts[..i])|
    {
      var n := nodes[i];
      ElementOf(w, db, n, ts[i], i == 0);
      var raw := HashChildren(w, n, db, false).raw;
      var hn := Store(w, raw, n.flag.hash, db, false, false).0;
      ElementsSnoc(w, ts, i, fromLevel);
      hide Elements;
      hide Entries;
      hide Skip;
      if hn.RHash? || i == 0 {
        if level > 0 {
          level := level - 1;
        } else {
          var enc := Encode(RawItem(raw));
          proof := proof[if hn.RHash? then hn.h else w.H(enc) := enc];
        }
      }
    }
    assert ts[..|ts|] == ts;
  }

  /** One more node on the path: nothing new, or one more element that is skipped or written. */
  lemma ElementsSnoc(w: World, ts: seq<Tree>, i: nat, level: nat)
    requires i < |ts|
    ensures
      var es, es' := Elements(w, ts[..i]), Elements(w, ts[..i + 1]);
      if i == 0 || Large(w, ts[i]) then
        && es' == es + [ts[i]]
        && (level > |es| ==> Skip(es', level) == [] == Skip(es, level))
        && (level <= |es| ==>
            Entries(w, Skip(es', level)) == Entries(w, Skip(es, level))[NodeHash(w, ts[i]) := Enc(w, ts[i])])
      else es' == es
  {
    hide Enc;
    var es := Elements(w, ts[..i]);
    assert ts[..i + 1][..i] == ts[..i];
    if i == 0 || Large(w, ts[i]) {
      var es' := es + [ts[i]];
      if level <= |es| {
        assert Skip(es', level) == Skip(es, level) + [ts[i]];
        assert (Skip(es, level) + [ts[i]])[..|es| - level] == Skip(es, level);
      }
    }
  }

  // ---- VerifyProof ----

  datatype ProofError = ProofMissing(h: Hash) | BadProofNode(e: NodeError)

  /** get: follow the key through a decoded node and its embedded children, up to the next hash. */
  method GetChild(n: Node, key: Hex, ghost w: World, ghost db: Db, ghost t: Tree)
    returns (keyrest: Hex, cld: Node, ghost t': Tree)
    requires Stands(w, db, n, t, true) && At(t, key) && key != [] && (n.Short? || n.Full?)
    ensures cld.Nil? || cld.Val? || cld.HashN?
    ensures cld.Nil? ==> Lookup(t, key) == None
    ensures cld.Val? ==> Lookup(t, key) == Some(cld.v)
    ensures cld.HashN? ==>
      && Stands(w, db, cld, t', false) && t' < t && keyrest != [] && At(t', keyrest)
      && Lookup(t', keyrest) == Lookup(t, key)
      && PathTail(t', keyrest, t, key)
  {
    var tn, k := n, key;
    ghost var s := t;
    ghost var first := true;
    while tn.Short? || tn.Full?
      invariant Stands(w, db, tn, s, first) && At(s, k)
      invariant Lookup(s, k) == Lookup(t, key)
      invariant PathTail(s, k, t, key)
      invariant first ==> (tn.Short? || tn.Full?) && s == t
      invariant !first ==> tn == Nil || s < t
      invariant tn.Short? || tn.Full? || tn.HashN? ==> k != []
      decreases if tn == Nil then 0 else 1, s
    {
      DownStands(w, db, tn, s, first, k);
      DownParts(w, db, tn, s, k);
      DownPath(s, k);
      TailStep(s, k, t, key);
      ghost var s' := DownT(s, k).0;
      tn, k := DownN(tn, k).0, DownN(tn, k).1;
      s := s';
      first := false;
      KeyLeft(w, db, tn, s, k);
    }
    t' := s;
    return k, tn, s;
  }

  /** The path of (s, k) is the end of the path of (t, key). */
  ghost predicate PathTail(s: Tree, k: Hex, t: Tree, key: Hex) {
    forall x :: x in PathTrees(s, k) ==> x in PathTrees(t, key)
  }

  lemma TailStep(s: Tree, k: Hex, t: Tree, key: Hex)
    requires PathTail(s, k, t, key) && Inner(s) && k != []
    ensures PathTail(DownT(s, k).0, DownT(s, k).1, t, key)
  {
    DownPath(s, k);
  }

  lemma KeyLeft(w: World, db: Db, n: Node, t: Tree, k: Hex)
    requires Stands(w, db, n, t, false) && At(t, k)
    ensures n.Short? || n.Full? || n.HashN? ==> k != []
  {}

  /** Every proof element of the path is in the store. */
  ghost predicate Complete(w: World, proof: Db, t: Tree, key: Hex) {
    forall s :: s in PathTrees(t, key) && Large(w, s) ==> NodeHash(w, s) in proof
  }

  /**
   * VerifyProof over a store whose entries hash to their keys: an answer is the trie's own
   * answer, and an error means that the store lacks a node. A store with all elements of the
   * path gives an answer.
   */
  method VerifyProof(w: World, rootHash: Hash, key: Key, proof: Db, ghost t: Tree)
    returns (r: Result<Option<Value>, ProofError>, nodes: nat)
    requires w.Valid() && Sound(w, proof) && Canonical(t) && Inner(t) && Covers(w, t) && rootHash == NodeHash(w, t)
    ensures r.Ok? ==> r.value == Lookup(t, KeybytesToHex(key))
    ensures r.Err? ==> r.error.ProofMissing? && r.error.h !in proof
    ensures rootHash in proof && Complete(w, proof, t, KeybytesToHex(key)) ==> r.Ok?
  {
    var k, wantHash := KeybytesToHex(key), rootHash;
    ghost var hex, s, first := k, t, true;
    hide Stands;
    hide Lookup;
    hide At;
    nodes := 0;
    assert Stands(w, proof, HashN(wantHash), s, first) by { StandsHash(w, proof, s); }
    assert At(s, k) by { AtRoot(s, k); }
    while true
      invariant Stands(w, proof, HashN(wantHash), s, first) && At(s, k) && k != []
      invariant first ==> s == t && wantHash == rootHash
      invariant Lookup(s, k) == Lookup(t, hex)
      invariant PathTail(s, k, t, hex)
      decreases s
    {
      if wantHash !in proof {
        if !first {
          OnPath(w, proof, wantHash, s, k);
        }
        return Err(ProofMissing(wantHash)), nodes;
      }
      var n := DecodeNode(Some(wantHash), proof[wantHash]);
      if n.Err? {
        r := Err(BadProofNode(n.error));
        DecodeStands(w, proof, wantHash, s, first);
        assert false;
        return;
      }
      DecodeStands(w, proof, wantHash, s, first);
      var keyrest, cld, s' := GetChild(n.value, k, w, proof, s);
      if cld.Nil? {
        return Ok(None), nodes;
      } else if cld.Val? {
        return Ok(Some(cld.v)), nodes + 1;
      }
      TailTrans(s', keyrest, s, k, t, hex);
      k, wantHash := keyrest, cld.h;
      s, first := s', false;
      nodes := nodes + 1;
    }
  }

  lemma TailTrans(a: Tree, ka: Hex, b: Tree, kb: Hex, t: Tree, key: Hex)
    requires PathTail(a, ka, b, kb) && PathTail(b, kb, t, key)
    ensures PathTail(a, ka, t, key)
  {}

  lemma StandsHash(w: World, db: Db, t: Tree)
    requires w.Valid() && Sound(w, db) && Canonical(t) && Inner(t) && Covers(w, t)
    ensures Stands(w, db, HashN(NodeHash(w, t)), t, true)
  {}

  lemma AtRoot(t: Tree, k: Hex)
    requires Canonical(t) && TermKey(k)
    ensures At(t, k)
  {}

  /** A hash below the root stands for a large node on the path. */
  lemma OnPath(w: World, db: Db, h: Hash, t: Tree, k: Hex)
    requires Stands(w, db, HashN(h), t, false) && k != []
    ensures Large(w, t) && h == NodeHash(w, t) && t in PathTrees(t, k)
  {}

  lemma DecodeStands(w: World, db: Db, h: Hash, t: Tree, root: bool)
    requires Stands(w, db, HashN(h), t, root) && h in db
    ensures
      var n := DecodeNode(Some(h), db[h]);
      n.Ok? && Stands(w, db, n.value, t, true) && (n.value.Short? || n.value.Full?)
  {
    ResolveStands(w, db, h, t, true);
  }

  lemma {:induction false} EntriesHave(w: World, ts: seq<Tree>)
    requires w.Valid() && forall s :: s in ts ==> Inner(s) && Covers(w, s)
    ensures Sound(w, Entries(w, ts))
    ensures forall s :: s in ts ==> NodeHash(w, s) in Entries(w, ts)
  {
    if ts != [] {
      var p, s := ts[..|ts| - 1], ts[|ts| - 1];
      EntriesHave(w, p);
      assert ts == p + [s];
      assert s in ts && Covers(w, s);
      assert Enc(w, s) in w.D;
    }
  }

  lemma {:induction false} ElementsHave(w: World, ts: seq<Tree>)
    ensures forall s :: s in Elements(w, ts) ==> s in ts
    ensures forall s :: s in ts && Large(w, s) ==> s in Elements(w, ts)
    ensures ts != [] ==> ts[0] in Elements(w, ts)
  {
    if ts != [] {
      var n := |ts| - 1;
      ElementsHave(w, ts[..n]);
      assert ts == ts[..n] + [ts[n]];
    }
  }

  /** The proof made at level 0 is a sound store with everything VerifyProof asks for. */
  lemma ProofComplete(w: World, t: Tree, key: Hex)
    requires w.Valid() && Canonical(t) && Inner(t) && Covers(w, t) && TermKey(key)
    ensures Sound(w, ProofOf(w, t, key, 0)) && NodeHash(w, t) in ProofOf(w, t, key, 0)
    ensures Complete(w, ProofOf(w, t, key, 0), t, key)
  {
    var ts := PathTrees(t, key);
    var es := Elements(w, ts);
    PathFacts(w, t, key);
    ElementsHave(w, ts);
    EntriesHave(w, es);
    assert Skip(es, 0) == es;
    assert ts[0] == t;
  }

  /** Prove and VerifyProof together: a proof of the trie verifies and yields the trie's answer. */
  method ProveThenVerify(w: World, db: Db, root: Node, key: Key, ghost t: Tree) returns (r: Result<Option<Value>, Hash>)
    requires Stands(w, db, root, t, true) && Canonical(t) && Inner(t)
    ensures r.Ok? ==> r.value == Lookup(t, KeybytesToHex(key))
    ensures r.Err? ==> r.error !in db
  {
    var proof := Prove(w, db, root, key, 0, t);
    if proof.Err? {
      return Err(proof.error);
    }
    ProofComplete(w, t, KeybytesToHex(key));
    HashCorrect(w, root, t, db, false, true);
    var rootHash := HashNode(w, root, db, false, true).raw.h;
    var answer, nodes := VerifyProof(w, rootHash, key, proof.value, t);
    return Ok(answer.value);
  }
}
