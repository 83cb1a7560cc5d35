/**
 * What the cache and the sync scheduler take as given exists: for any tries and code whose hashes do
 * not collide there is one account of what the hashes stand for, and it leads downwards, also from the
 * leaves of account tries to the storage tries and the code they refer to.
 */
module TrieUniverse {
  import opened Bytes
  import opened TrieTree
  import opened TrieNode
  import opened TrieLazy
  import opened TrieHasher
  import opened TrieStore
  import opened TrieSynced
  import opened TrieCommit
  import TrieState
  import TrieRun
  import TrieDatabase
  import Held = TrieHeld
  import Sync = TrieSync

  // ---- heights ----

  function Height(t: Tree): (n: nat)
    decreases t, 0
  {
    match t
    case Ext(_, c) => 1 + Height(c)
    case Branch(subs) => 1 + Highest(subs, 0)
    case _ => 0
  }

  function Highest(subs: seq<Tree>, i: nat): (n: nat)
    ensures forall j :: i <= j < |subs| ==> Height(subs[j]) <= n
    decreases subs, |subs| - i
  {
    if i >= |subs| then 0
    else
      var (a, b) := (Height(subs[i]), Highest(subs, i + 1));
      if a > b then a else b
  }

  lemma {:induction false} InsideHeight(x: Tree, t: Tree)
    requires Inside(x, t)
    ensures Height(x) < Height(t)
    decreases t
  {
    match t
    case Ext(_, c) =>
      if x != c {
        InsideHeight(x, c);
      }
    case Branch(subs) =>
      var i :| 0 <= i < |subs| && SubOf(x, subs[i]);
      assert Height(subs[i]) <= Highest(subs, 0);
      if x != subs[i] {
        InsideHeight(x, subs[i]);
      }
  }

  // ---- one account for all of them ----

  /** A node of one of the tries, with its hash. */
  ghost predicate NodeOf(w: World, ts: iset<Tree>, x: Tree, h: Hash) {
    Inner(x) && NodeHash(w, x) == h && exists t :: t in ts && SubOf(x, t)
  }

  ghost function Named(w: World, ts: iset<Tree>, h: Hash): (x: Tree)
    ensures NodeOf(w, ts, x, h) || (x == Empty && forall y :: !NodeOf(w, ts, y, h))
  {
    if y :| NodeOf(w, ts, y, h) then y else Empty
  }

  /** A leaf below the node refers to something. */
  ghost predicate Linking(refs: seq<byte> -> seq<Hash>, t: Tree) {
    exists x :: SubOf(x, t) && LeafRefs(refs, x) != []
  }

  ghost predicate Referred(ts: iset<Tree>, refs: seq<byte> -> seq<Hash>, c: Hash) {
    exists x, t :: t in ts && SubOf(x, t) && c in LeafRefs(refs, x)
  }

  /**
   * Tries and code that may share a database: no two collide, and what a leaf refers to has no leaves
   * that refer to anything in turn, and is not too high.
   */
  ghost predicate Covered(w: World, ts: iset<Tree>, bs: iset<seq<byte>>, refs: seq<byte> -> seq<Hash>, bound: nat) {
    && w.Valid() && (forall t :: t in ts ==> Canonical(t) && Covers(w, t)) && (forall b :: b in bs ==> b in w.D)
    && (forall c :: Referred(ts, refs, c) ==> c != ZeroHash())
    && forall c, x :: Referred(ts, refs, c) && NodeOf(w, ts, x, c) ==> !Linking(refs, x) && Height(x) < bound
  }

  ghost function BlobOf(w: World, ts: iset<Tree>, bs: iset<seq<byte>>, h: Hash): (b: seq<byte>) {
    var x := Named(w, ts, h);
    if Inner(x) then Enc(w, x) else if b :| b in bs && w.H(b) == h then b else []
  }

  ghost function RankOf(refs: seq<byte> -> seq<Hash>, bound: nat, x: Tree): (n: nat) {
    Height(x) + if Linking(refs, x) then bound else 0
  }

  ghost function UniverseOf(w: World, ts: iset<Tree>, bs: iset<seq<byte>>, refs: seq<byte> -> seq<Hash>,
                            bound: nat): (u: Universe)
  {
    TrieDatabase.Universe(
      ZeroHash(), h => BlobOf(w, ts, bs, h), h => Gather(Collapse(w, Named(w, ts, h))),
      h => RankOf(refs, bound, Named(w, ts, h)))
  }

  ghost function LinksOf(w: World, ts: iset<Tree>, refs: seq<byte> -> seq<Hash>): (links: Hash -> seq<Hash>) {
    h => LeafRefs(refs, Named(w, ts, h))
  }

  lemma NodeCovered(w: World, ts: iset<Tree>, bs: iset<seq<byte>>, refs: seq<byte> -> seq<Hash>, bound: nat, x: Tree,
                    h: Hash)
    requires Covered(w, ts, bs, refs, bound) && NodeOf(w, ts, x, h)
    ensures Canonical(x) && Covers(w, x) && Inner(x) && NodeHash(w, x) == h
  {
    hide Enc;
    hide Canonical;
    hide Covers;
    hide Linking;
    var t :| t in ts && SubOf(x, t);
    SubCovered(w, x, t);
  }

  /** A hash names one node only. */
  lemma NamedUnique(w: World, ts: iset<Tree>, bs: iset<seq<byte>>, refs: seq<byte> -> seq<Hash>, bound: nat, x: Tree,
                    h: Hash)
    requires Covered(w, ts, bs, refs, bound) && NodeOf(w, ts, x, h)
    ensures Named(w, ts, h) == x && Canonical(x) && Covers(w, x)
  {
    hide Enc;
    var y := Named(w, ts, h);
    NodeCovered(w, ts, bs, refs, bound, x, h);
    NodeCovered(w, ts, bs, refs, bound, y, h);
    hide Named;
    hide NodeOf;
    hide Canonical;
    hide Covers;
    hide Linking;
    HashInjective(w, x, y);
  }

  lemma RankInside(refs: seq<byte> -> seq<Hash>, bound: nat, x: Tree, t: Tree)
    requires Inside(x, t)
    ensures RankOf(refs, bound, x) < RankOf(refs, bound, t)
  {
    hide LeafRefs;
    hide Height;
    InsideHeight(x, t);
    if Linking(refs, x) {
      var y :| SubOf(y, x) && LeafRefs(refs, y) != [];
      InsideTrans(y, x, t);
      assert SubOf(y, t);
    }
  }

  lemma KidBelow(w: World, ts: iset<Tree>, bs: iset<seq<byte>>, refs: seq<byte> -> seq<Hash>, bound: nat, h: Hash,
                 c: Hash)
    requires Covered(w, ts, bs, refs, bound) && c in Gather(Collapse(w, Named(w, ts, h)))
    ensures c != ZeroHash() && RankOf(refs, bound, Named(w, ts, c)) < RankOf(refs, bound, Named(w, ts, h))
  {
    hide Enc;
    hide Canonical;
    hide Covers;
    hide RankOf;
    hide Linking;
    var x := Named(w, ts, h);
    if NodeOf(w, ts, x, h) {
      NodeCovered(w, ts, bs, refs, bound, x, h);
      var y := GatheredSub(w, x, c);
      var t :| t in ts && SubOf(x, t);
      SubTrans(y, x, t);
      assert NodeOf(w, ts, y, c);
      NamedUnique(w, ts, bs, refs, bound, y, c);
      TrieRun.NotEmptyRoot(w, y);
      RankInside(refs, bound, y, x);
    }
  }

  lemma LinkBelow(w: World, ts: iset<Tree>, bs: iset<seq<byte>>, refs: seq<byte> -> seq<Hash>, bound: nat, h: Hash,
                  c: Hash)
    requires Covered(w, ts, bs, refs, bound) && c in LinksOf(w, ts, refs)(h)
    ensures c != ZeroHash() && RankOf(refs, bound, Named(w, ts, c)) < RankOf(refs, bound, Named(w, ts, h))
  {
    hide Enc;
    hide Canonical;
    hide Covers;
    var (x, y) := (Named(w, ts, h), Named(w, ts, c));
    var t :| t in ts && SubOf(x, t);
    assert SubOf(x, x) && Linking(refs, x) && Height(x) > 0;
    assert Referred(ts, refs, c);
    if !NodeOf(w, ts, y, c) {
      assert !Linking(refs, y) && Height(y) == 0;
    }
  }

  lemma UniverseValid(w: World, ts: iset<Tree>, bs: iset<seq<byte>>, refs: seq<byte> -> seq<Hash>, bound: nat)
    requires Covered(w, ts, bs, refs, bound)
    ensures var u := UniverseOf(w, ts, bs, refs, bound); u.Valid() && u.zero == ZeroHash()
  {
    hide Covered;
    hide RankOf;
    hide BlobOf;
    hide Named;
    var u := UniverseOf(w, ts, bs, refs, bound);
    forall h, c | c in u.kids(h)
      ensures c != u.zero && u.rank(c) < u.rank(h)
    {
      KidBelow(w, ts, bs, refs, bound, h, c);
    }
  }

  lemma UniverseNode(w: World, ts: iset<Tree>, bs: iset<seq<byte>>, refs: seq<byte> -> seq<Hash>, bound: nat, t: Tree,
                     x: Tree)
    requires Covered(w, ts, bs, refs, bound) && t in ts && SubOf(x, t) && Inner(x)
    ensures DescribesNode(w, UniverseOf(w, ts, bs, refs, bound), x) && Named(w, ts, NodeHash(w, x)) == x
  {
    hide Enc;
    hide Covered;
    assert NodeOf(w, ts, x, NodeHash(w, x));
    NamedUnique(w, ts, bs, refs, bound, x, NodeHash(w, x));
    hide Named;
  }

  lemma {:induction false} UniverseBelow(w: World, ts: iset<Tree>, bs: iset<seq<byte>>, refs: seq<byte> -> seq<Hash>,
                                         bound: nat, t: Tree, x: Tree)
    requires Covered(w, ts, bs, refs, bound) && t in ts && SubOf(x, t)
    ensures Describes(w, UniverseOf(w, ts, bs, refs, bound), x)
    decreases x
  {
    hide DescribesNode;
    hide UniverseOf;
    hide Covered;
    ChildSub(x);
    match x
    case Ext(_, c) =>
      SubTrans(c, x, t);
      UniverseBelow(w, ts, bs, refs, bound, t, c);
      if Inner(c) {
        UniverseNode(w, ts, bs, refs, bound, t, c);
      }
    case Branch(subs) =>
      forall i | 0 <= i < |subs|
        ensures Describes(w, UniverseOf(w, ts, bs, refs, bound), subs[i])
        ensures Large(w, subs[i]) ==> DescribesNode(w, UniverseOf(w, ts, bs, refs, bound), subs[i])
      {
        SubTrans(subs[i], x, t);
        UniverseBelow(w, ts, bs, refs, bound, t, subs[i]);
        if Inner(subs[i]) {
          UniverseNode(w, ts, bs, refs, bound, t, subs[i]);
        }
      }
    case _ =>
  }

  lemma UniverseLinks(w: World, ts: iset<Tree>, bs: iset<seq<byte>>, refs: seq<byte> -> seq<Hash>, bound: nat, t: Tree)
    requires Covered(w, ts, bs, refs, bound) && t in ts
    ensures TrieState.LinksRight(w, UniverseOf(w, ts, bs, refs, bound), refs, LinksOf(w, ts, refs), t)
  {
    hide Covered;
    hide LeafRefs;
    hide RankOf;
    hide BlobOf;
    hide Large;
    var u, links := UniverseOf(w, ts, bs, refs, bound), LinksOf(w, ts, refs);
    forall x | EntryOf(w, x, t)
      ensures links(NodeHash(w, x)) == LeafRefs(refs, x)
      ensures forall c :: c in links(NodeHash(w, x)) ==> c != u.zero && u.rank(c) < u.rank(NodeHash(w, x))
    {
      EntryInner(w, x, t);
      UniverseNode(w, ts, bs, refs, bound, t, x);
      hide Named;
      forall c | c in links(NodeHash(w, x))
        ensures c != u.zero && u.rank(c) < u.rank(NodeHash(w, x))
      {
        LinkBelow(w, ts, bs, refs, bound, NodeHash(w, x), c);
      }
    }
  }

  lemma EntryInner(w: World, x: Tree, t: Tree)
    requires EntryOf(w, x, t)
    ensures SubOf(x, t) && Inner(x)
  {}

  lemma UniverseCode(w: World, ts: iset<Tree>, bs: iset<seq<byte>>, refs: seq<byte> -> seq<Hash>, bound: nat,
                     b: seq<byte>)
    requires Covered(w, ts, bs, refs, bound) && b in bs
    ensures UniverseOf(w, ts, bs, refs, bound).blob(w.H(b)) == b
  {
    hide Linking;
    var (h, x) := (w.H(b), Named(w, ts, w.H(b)));
    if Inner(x) {
      NodeCovered(w, ts, bs, refs, bound, x, h);
      CoversEnc(w, x);
    }
  }

  /**
   * For any tries and code without collisions there is an account of all their hashes, in which leaves
   * lie above what they refer to.
   */
  lemma UniverseExists(w: World, ts: iset<Tree>, bs: iset<seq<byte>>, refs: seq<byte> -> seq<Hash>, bound: nat)
    requires Covered(w, ts, bs, refs, bound)
    ensures var (u, links) := (UniverseOf(w, ts, bs, refs, bound), LinksOf(w, ts, refs));
      && u.Valid() && u.zero == ZeroHash() && TrieState.LinksOff(u, links)
      && (forall b :: b in bs ==> u.blob(w.H(b)) == b)
      && forall t :: t in ts ==>
        Describes(w, u, t) && (Inner(t) ==> DescribesNode(w, u, t)) && TrieState.LinksRight(w, u, refs, links, t)
  {
    UniverseValid(w, ts, bs, refs, bound);
    var u, links := UniverseOf(w, ts, bs, refs, bound), LinksOf(w, ts, refs);
    forall h, c | c in links(h)
      ensures Held.NotMeta(u.zero, c)
    {
      LinkBelow(w, ts, bs, refs, bound, h, c);
    }
    forall b | b in bs
      ensures u.blob(w.H(b)) == b
    {
      UniverseCode(w, ts, bs, refs, bound, b);
    }
    hide UniverseOf;
    hide LinksOf;
    hide Describes;
    hide DescribesNode;
    hide TrieState.LinksRight;
    hide Covered;
    forall t | t in ts
      ensures Describes(w, u, t) && (Inner(t) ==> DescribesNode(w, u, t)) && TrieState.LinksRight(w, u, refs, links, t)
    {
      UniverseLinks(w, ts, bs, refs, bound, t);
      UniverseBelow(w, ts, bs, refs, bound, t, t);
      if Inner(t) {
        UniverseNode(w, ts, bs, refs, bound, t, t);
      }
    }
  }

  // ---- and a plan for fetching them ----

  /** What the scheduler sees of it, with a callback asking for entries at the leaves. */
  ghost function PlanOf(w: World, u: Universe, subs: (Hash, nat) -> seq<Sync.Entry<Hash>>): (p: Plan) {
    Sync.Plan(u.blob, h => w.H(u.blob(h)) == h, h => h != TrieRun.EmptyRoot(w), u.kids, subs, u.rank,
              TrieRun.EmptyRoot(w), w.H([]))
  }

  /** Whatever is asked for at a leaf is what the leaf refers to. */
  ghost predicate Asks(links: Hash -> seq<Hash>, subs: (Hash, nat) -> seq<Sync.Entry<Hash>>) {
    forall h, cb, e :: e in subs(h, cb) ==> e.hash in links(h)
  }

  lemma PlanValid(w: World, u: Universe, links: Hash -> seq<Hash>, subs: (Hash, nat) -> seq<Sync.Entry<Hash>>)
    requires u.Valid() && Asks(links, subs) && forall h, c :: c in links(h) ==> u.rank(c) < u.rank(h)
    ensures PlanOf(w, u, subs).Valid()
  {
    var p := PlanOf(w, u, subs);
    forall e, x | x in p.Refs(e)
      ensures u.rank(x.hash) < u.rank(e.hash)
    {
      Sync.NodesMember(u.kids(e.hash), e.kind.callback, x);
      if x !in subs(e.hash, e.kind.callback) {
        TrieDatabase.KidLies(u, e.hash, x.hash);
      }
    }
  }

  lemma PlanNode(w: World, u: Universe, subs: (Hash, nat) -> seq<Sync.Entry<Hash>>, t: Tree)
    requires DescribesNode(w, u, t) && Inner(t) && Canonical(t)
    ensures PlansNode(w, PlanOf(w, u, subs), t)
  {
    DirectIsGather(w, t, Some(NodeHash(w, t)));
  }

  lemma {:induction false} PlanAll(w: World, u: Universe, subs: (Hash, nat) -> seq<Sync.Entry<Hash>>, t: Tree)
    requires Describes(w, u, t) && Canonical(t)
    ensures Plans(w, PlanOf(w, u, subs), t)
  {
    hide DescribesNode;
    hide PlansNode;
    match t
    case Ext(_, c) =>
      PlanKid(w, u, subs, c);
      if !c.Leaf? {
        PlanAll(w, u, subs, c);
      }
    case Branch(cs) =>
      forall i | 0 <= i < |cs|
        ensures PlansKid(w, PlanOf(w, u, subs), cs[i]) && Plans(w, PlanOf(w, u, subs), cs[i])
      {
        PlanKid(w, u, subs, cs[i]);
        if i < 16 {
          PlanAll(w, u, subs, cs[i]);
        }
      }
    case _ =>
  }

  lemma PlanKid(w: World, u: Universe, subs: (Hash, nat) -> seq<Sync.Entry<Hash>>, c: Tree)
    requires Large(w, c) ==> DescribesNode(w, u, c)
    requires Inner(c) ==> Canonical(c)
    ensures PlansKid(w, PlanOf(w, u, subs), c)
  {
    if Large(w, c) {
      PlanNode(w, u, subs, c);
    }
  }

  /** There is a plan for fetching the tries under any callback that asks for what their leaves refer to. */
  lemma PlanExists(w: World, ts: iset<Tree>, bs: iset<seq<byte>>, refs: seq<byte> -> seq<Hash>, bound: nat,
                   subs: (Hash, nat) -> seq<Sync.Entry<Hash>>)
    requires Covered(w, ts, bs, refs, bound) && Asks(LinksOf(w, ts, refs), subs)
    ensures var p := PlanOf(w, UniverseOf(w, ts, bs, refs, bound), subs);
      && p.Valid() && HonestPlan(w, p) && p.emptyRoot == TrieRun.EmptyRoot(w)
      && (forall b :: b in bs ==> p.blob(w.H(b)) == b && p.genuine(w.H(b)))
      && forall t :: t in ts ==> Plans(w, p, t) && (Inner(t) ==> PlansNode(w, p, t) && p.genuine(NodeHash(w, t)))
  {
    var u := UniverseOf(w, ts, bs, refs, bound);
    UniverseExists(w, ts, bs, refs, bound);
    PlanHonest(w, ts, bs, refs, bound, subs);
    forall h, c | c in LinksOf(w, ts, refs)(h)
      ensures u.rank(c) < u.rank(h)
    {
      LinkBelow(w, ts, bs, refs, bound, h, c);
    }
    hide UniverseOf;
    PlanValid(w, u, LinksOf(w, ts, refs), subs);
    hide LinksOf;
    forall t | t in ts
      ensures Plans(w, PlanOf(w, u, subs), t)
      ensures Inner(t) ==> PlansNode(w, PlanOf(w, u, subs), t) && PlanOf(w, u, subs).genuine(NodeHash(w, t))
    {
      PlanAll(w, u, subs, t);
      if Inner(t) {
        PlanNode(w, u, subs, t);
      }
    }
  }

  lemma BlobKnown(w: World, ts: iset<Tree>, bs: iset<seq<byte>>, refs: seq<byte> -> seq<Hash>, bound: nat, h: Hash)
    requires Covered(w, ts, bs, refs, bound)
    ensures BlobOf(w, ts, bs, h) in w.D
  {
    hide Enc;
    hide Linking;
    hide Canonical;
    hide Covers;
    var x := Named(w, ts, h);
    if Inner(x) {
      NodeCovered(w, ts, bs, refs, bound, x, h);
      CoversEnc(w, x);
    }
  }

  lemma PlanHonest(w: World, ts: iset<Tree>, bs: iset<seq<byte>>, refs: seq<byte> -> seq<Hash>, bound: nat,
                   subs: (Hash, nat) -> seq<Sync.Entry<Hash>>)
    requires Covered(w, ts, bs, refs, bound)
    ensures HonestPlan(w, PlanOf(w, UniverseOf(w, ts, bs, refs, bound), subs))
  {
    hide BlobOf;
    hide Covered;
    var u := UniverseOf(w, ts, bs, refs, bound);
    forall h
      ensures u.blob(h) in w.D
    {
      BlobKnown(w, ts, bs, refs, bound, h);
    }
  }
}
