/**
 * What the write cache (proton/trie/database.go) keeps of a trie. An entry's children belong to its
 * first insertion: a blob that happens to be a trie node is cached without them, and inserting the
 * node afterwards changes nothing. So a trie whose root is referenced, or stored, is there completely
 * exactly if the nodes in it that were only ever inserted as blobs have their children all the same.
 */
module TrieHeld {
  import opened Bytes
  import opened TrieDatabase
  import opened TrieGc

  // ---- what a node leads to ----

  /** A chain of nodes, each wanted by the one before. */
  ghost predicate Trail<K(!new)>(want: K -> seq<K>, p: seq<K>) {
    p != [] && forall i :: 0 < i < |p| ==> p[i] in want(p[i - 1])
  }

  ghost predicate Leads<K(!new)>(want: K -> seq<K>, a: K, b: K) {
    exists p :: Trail(want, p) && p[0] == a && p[|p| - 1] == b
  }

  lemma LeadsSelf<K(!new)>(want: K -> seq<K>, a: K)
    ensures Leads(want, a, a)
  {
    assert Trail(want, [a]);
  }

  lemma LeadsStep<K(!new)>(want: K -> seq<K>, a: K, b: K, c: K)
    requires Leads(want, a, b) && c in want(b)
    ensures Leads(want, a, c)
  {
    var p :| Trail(want, p) && p[0] == a && p[|p| - 1] == b;
    assert Trail(want, p + [c]);
  }

  /** Whatever holds of the start and is handed down holds of all that is led to. */
  lemma {:induction false} TrailInside<K(!new)>(want: K -> seq<K>, here: iset<K>, p: seq<K>)
    requires Trail(want, p) && p[0] in here
    requires forall h, c :: h in here && Leads(want, p[0], h) && c in want(h) ==> c in here
    ensures p[|p| - 1] in here && Leads(want, p[0], p[|p| - 1])
  {
    if |p| == 1 {
      LeadsSelf(want, p[0]);
    } else {
      var init := p[..|p| - 1];
      TrailInside(want, here, init);
      LeadsStep(want, p[0], init[|init| - 1], p[|p| - 1]);
    }
  }

  lemma LeadsInside<K(!new)>(want: K -> seq<K>, here: iset<K>, a: K)
    requires a in here && forall h, c :: h in here && Leads(want, a, h) && c in want(h) ==> c in here
    ensures forall x :: Leads(want, a, x) ==> x in here
  {
    forall x | Leads(want, a, x)
      ensures x in here
    {
      var p :| Trail(want, p) && p[0] == a && p[|p| - 1] == x;
      TrailInside(want, here, p);
    }
  }

  /** Where only gaps may lack something they want, all is there exactly if the gaps on the way lack nothing. */
  lemma LeadsIff<K(!new)>(want: K -> seq<K>, here: iset<K>, gap: iset<K>, a: K)
    requires a in here && forall h, c :: h in here && h !in gap && c in want(h) ==> c in here
    ensures (forall x :: Leads(want, a, x) ==> x in here) <==>
      (forall g, c :: Leads(want, a, g) && g in gap && c in want(g) ==> c in here)
  {
    if forall x :: Leads(want, a, x) ==> x in here {
      forall g, c | Leads(want, a, g) && g in gap && c in want(g)
        ensures c in here
      {
        LeadsStep(want, a, g, c);
      }
    }
    if forall g, c :: Leads(want, a, g) && g in gap && c in want(g) ==> c in here {
      LeadsInside(want, here, a);
    }
  }

  /** All that a node leads to can be read. */
  ghost predicate AllHeld<K(!new)>(want: K -> seq<K>, zero: K, s: Cache<K>, a: K) {
    forall x :: Leads(want, a, x) ==> Readable(zero, s, x)
  }

  /** The nodes below that were only ever inserted as blobs have their children all the same. */
  ghost predicate Mended<K(!new)>(u: Universe<K>, s: Cache<K>, a: K) {
    forall g, c :: Leads(u.kids, a, g) && Bare(u, s, g) && c in u.kids(g) ==> Readable(u.zero, s, c)
  }

  /**
   * All below a node that can be read can be read exactly if that is so of the children of those nodes
   * on the way that were only ever inserted as blobs.
   */
  lemma HeldIff<K(!new)>(u: Universe<K>, s: Cache<K>, size: Sizes, a: K)
    requires Good(u, s, size, [], multiset{}) && Readable(u.zero, s, a)
    ensures AllHeld(u.kids, u.zero, s, a) <==> Mended(u, s, a)
  {
    hide Good;
    hide Leads;
    var (here, gap) := ((iset h | Readable(u.zero, s, h)), (iset h | Bare(u, s, h)));
    forall h, c | h in here && h !in gap && c in u.kids(h)
      ensures c in here
    {
      ReadableKids(u, s, size, h);
    }
    LeadsIff(u.kids, here, gap, a);
    hide Readable;
    hide Bare;
    assert forall x :: x in here <==> Readable(u.zero, s, x);
    assert forall x :: x in gap <==> Bare(u, s, x);
  }

  ghost predicate MendedDisk<K(!new)>(u: Universe<K>, disk: map<K, seq<byte>>, plain: set<K>, a: K) {
    forall g, c :: Leads(u.kids, a, g) && g in plain && c in u.kids(g) ==> c in disk
  }

  /** The same for the disk alone. */
  lemma StoredIff<K(!new)>(u: Universe<K>, disk: map<K, seq<byte>>, plain: set<K>, a: K)
    requires Closed(u, disk, plain) && a in disk
    ensures (forall x :: Leads(u.kids, a, x) ==> x in disk) <==> MendedDisk(u, disk, plain, a)
  {
    hide Leads;
    var (here, gap) := ((iset h | h in disk), (iset h | h in plain));
    LeadsIff(u.kids, here, gap, a);
    assert forall x :: x in here <==> x in disk;
    assert forall x :: x in gap <==> x in plain;
  }

  // ---- what stays whatever is done ----

  /**
   * A stored node has all it wants on disk, and a node that is only cached refers to all it wants that
   * is not.
   */
  ghost predicate Firm<K(!new)>(want: K -> seq<K>, s: Cache<K>, h: K) {
    && (h in s.disk ==> forall c :: c in want(h) ==> c in s.disk)
    && (h !in s.disk && h in s.d ==> forall c :: c in want(h) ==> c in s.disk || Cnt(s.d[h], c) > 0)
  }

  ghost predicate AllFirm<K(!new)>(want: K -> seq<K>, zero: K, s: Cache<K>, a: K) {
    forall h :: Leads(want, a, h) ==> h != zero && Firm(want, s, h)
  }

  /** The root is stored or referenced from outside, and all it leads to is firm. */
  ghost predicate Stands<K(!new)>(want: K -> seq<K>, zero: K, s: Cache<K>, a: K) {
    (a in s.disk || (zero in s.d && Cnt(s.d[zero], a) > 0)) && AllFirm(want, zero, s, a)
  }

  lemma FirmKids<K(!new)>(want: K -> seq<K>, u: Universe<K>, s: Cache<K>, size: Sizes, h: K, c: K)
    requires Good(u, s, size, [], multiset{}) && Readable(u.zero, s, h) && Firm(want, s, h) && c in want(h)
    ensures Readable(u.zero, s, c)
  {
    hide Good;
    hide Cnt;
    Members(u, s, size, [], multiset{});
    PlainStored(u, s, size);
    if c !in s.disk {
      var i := Listed(u, s, size, [], multiset{}, h);
      PlacedAt(u, s, size, i);
    }
  }

  lemma StandsReadable<K(!new)>(want: K -> seq<K>, u: Universe<K>, s: Cache<K>, size: Sizes, a: K)
    requires Good(u, s, size, [], multiset{}) && Stands(want, u.zero, s, a)
    ensures Readable(u.zero, s, a)
  {
    hide Good;
    hide Leads;
    hide Cnt;
    PlainStored(u, s, size);
    if a !in s.disk {
      RootReadable(u, s, size, a);
    }
  }

  /** What stands can be read completely. */
  lemma StandsHeld<K(!new)>(want: K -> seq<K>, u: Universe<K>, s: Cache<K>, size: Sizes, a: K)
    requires Good(u, s, size, [], multiset{}) && Stands(want, u.zero, s, a)
    ensures AllHeld(want, u.zero, s, a)
  {
    hide Good;
    hide Leads;
    hide Firm;
    StandsReadable(want, u, s, size, a);
    var here := iset h | Readable(u.zero, s, h);
    forall h, c | h in here && Leads(want, a, h) && c in want(h)
      ensures c in here
    {
      FirmKids(want, u, s, size, h, c);
    }
    LeadsInside(want, here, a);
    hide Readable;
    assert forall x :: x in here <==> Readable(u.zero, s, x);
  }

  /** What was firm still is. */
  ghost predicate FirmStays<K(!new)>(want: K -> seq<K>, zero: K, s: Cache<K>, s': Cache<K>) {
    forall h :: h != zero && Firm(want, s, h) ==> Firm(want, s', h)
  }

  lemma FirmStaysTrans<K(!new)>(want: K -> seq<K>, zero: K, a: Cache<K>, b: Cache<K>, c: Cache<K>)
    requires FirmStays(want, zero, a, b) && FirmStays(want, zero, b, c)
    ensures FirmStays(want, zero, a, c)
  {
    hide Firm;
  }

  lemma FirmKept<K(!new)>(want: K -> seq<K>, zero: K, s: Cache<K>, s': Cache<K>)
    requires Kept(s, s')
    ensures FirmStays(want, zero, s, s')
  {
    hide Cnt;
    forall h | Firm(want, s, h)
      ensures Firm(want, s', h)
    {
      if h in s.d && h in s'.d {
        CntSame(s.d[h], s'.d[h]);
      }
    }
  }

  lemma FirmReleased<K(!new)>(want: K -> seq<K>, u: Universe<K>, s: Cache<K>, size: Sizes, s': Cache<K>, size': Sizes)
    requires Good(u, s, size, [], multiset{}) && Good(u, s', size', [], multiset{}) && s'.disk == s.disk
    requires NoLeak(s.d, s.order, s'.d, s'.order)
    ensures FirmStays(want, u.zero, s, s')
  {
    hide Good;
    hide Cnt;
    hide Sum;
    hide Distinct;
    OrderKeys(u, s, size);
    OrderKeys(u, s', size');
    forall h | h != u.zero && Firm(want, s, h)
      ensures Firm(want, s', h)
    {
      if h in s'.d {
        CntSame(s.d[h], s'.d[h]);
      }
    }
  }

  /** A new node is firm if it has all it wants among its children or on disk. */
  lemma FirmInserted<K(!new)>(want: K -> seq<K>, zero: K, s: Cache<K>, s': Cache<K>, k: K, blob: seq<byte>,
                              kids: seq<K>)
    requires k !in s.d && Inserted(s.d, s'.d, k, blob, kids) && s'.disk == s.disk
    ensures forall h :: h != k && Firm(want, s, h) ==> Firm(want, s', h)
    ensures k in s.disk && Firm(want, s, k) ==> Firm(want, s', k)
    ensures k !in s.disk && (forall c :: c in want(k) ==> c in kids || c in s.disk) ==> Firm(want, s', k)
  {
    hide Inserted;
    InsertedEntry(s.d, s'.d, k, blob, kids);
    forall h | h in s.d
      ensures forall c :: Cnt(s'.d[h], c) == Cnt(s.d[h], c)
    {
      CntSame(s.d[h], s'.d[h]);
    }
    forall c | c in kids
      ensures Cnt(s'.d[k], c) > 0
    {
      KidsCounted(s'.d[k], c);
    }
    hide Cnt;
  }

  lemma FirmLinked<K(!new)>(want: K -> seq<K>, zero: K, s: Cache<K>, s': Cache<K>, c: K, p: K)
    requires c in s.d && p in s.d && c != p && s'.disk == s.disk
    requires s'.d == Raised(s.d, c)[p := Linked(s.d[p], c)]
    ensures FirmStays(want, zero, s, s') && Cnt(s'.d[p], c) > 0
  {
    hide Linked;
    LinkedCnt(s.d[p], c);
    forall h | h in s.d && h != p
      ensures forall x :: Cnt(s'.d[h], x) == Cnt(s.d[h], x)
    {
      CntSame(s.d[h], s'.d[h]);
    }
    hide Cnt;
  }

  /** A trie that stands is there completely, so nothing of it can be inserted anew except what is on disk. */
  lemma StandsInserted<K(!new)>(want: K -> seq<K>, u: Universe<K>, s: Cache<K>, size: Sizes, s': Cache<K>, a: K, k: K,
                                blob: seq<byte>, kids: seq<K>)
    requires Good(u, s, size, [], multiset{}) && Stands(want, u.zero, s, a) && s'.disk == s.disk
    requires k !in s.d && Inserted(s.d, s'.d, k, blob, kids)
    ensures Stands(want, u.zero, s', a)
  {
    hide Good;
    hide Leads;
    hide Cnt;
    StandsHeld(want, u, s, size, a);
    FirmInserted(want, u.zero, s, s', k, blob, kids);
    Members(u, s, size, [], multiset{});
    hide Inserted;
    InsertedEntry(s.d, s'.d, k, blob, kids);
    CntSame(s.d[u.zero], s'.d[u.zero]);
    hide Firm;
    forall h | Leads(want, a, h)
      ensures h != u.zero && Firm(want, s', h)
    {
      assert Readable(u.zero, s, h);
    }
  }

  lemma StandsKept<K(!new)>(want: K -> seq<K>, u: Universe<K>, s: Cache<K>, size: Sizes, s': Cache<K>, size': Sizes,
                            a: K)
    requires Good(u, s, size, [], multiset{}) && Good(u, s', size', [], multiset{}) && Kept(s, s')
    requires Stands(want, u.zero, s, a)
    ensures Stands(want, u.zero, s', a)
  {
    hide Good;
    hide Leads;
    hide Firm;
    hide Cnt;
    FirmKept(want, u.zero, s, s');
    MetaKids(u, s, size);
    MetaKids(u, s', size');
    CntSame(s.d[u.zero], s'.d[u.zero]);
  }

  lemma UnlinkedOther<K(!new)>(e: CachedNode<K>, e': CachedNode<K>, c: K, a: K)
    requires a != c && e.kids == e'.kids && e'.children == Unlinked(e, c).children
    ensures Cnt(e', a) == Cnt(e, a)
  {}

  lemma StandsReleased<K(!new)>(want: K -> seq<K>, u: Universe<K>, s: Cache<K>, size: Sizes, s': Cache<K>, size': Sizes,
                                a: K, root: K)
    requires Good(u, s, size, [], multiset{}) && Good(u, s', size', [], multiset{}) && s'.disk == s.disk
    requires NoLeak(s.d, s.order, s'.d, s'.order) && u.zero in s.d && u.zero in s'.d && a != root
    requires s'.d[u.zero].children == Unlinked(s.d[u.zero], root).children && Stands(want, u.zero, s, a)
    ensures Stands(want, u.zero, s', a)
  {
    hide Good;
    hide Leads;
    hide Firm;
    hide Cnt;
    hide Unlinked;
    hide NoLeak;
    FirmReleased(want, u, s, size, s', size');
    MetaKids(u, s, size);
    MetaKids(u, s', size');
    UnlinkedOther(s.d[u.zero], s'.d[u.zero], root, a);
  }

  lemma StandsLinked<K(!new)>(want: K -> seq<K>, zero: K, s: Cache<K>, s': Cache<K>, a: K, c: K)
    requires c in s.d && zero in s.d && c != zero && s'.disk == s.disk
    requires s'.d == Raised(s.d, c)[zero := Linked(s.d[zero], c)] && Stands(want, zero, s, a)
    ensures Stands(want, zero, s', a)
  {
    hide Leads;
    hide Firm;
    hide Linked;
    FirmLinked(want, zero, s, s', c, zero);
    LinkedCnt(s.d[zero], c);
    hide Cnt;
  }

  // ---- no blob is a node with children ----

  /** Everything that is there is firm. */
  ghost predicate EveryFirm<K(!new)>(want: K -> seq<K>, zero: K, s: Cache<K>) {
    forall h :: h != zero ==> Firm(want, s, h)
  }

  lemma EveryStays<K(!new)>(want: K -> seq<K>, zero: K, s: Cache<K>, s': Cache<K>)
    requires EveryFirm(want, zero, s) && FirmStays(want, zero, s, s')
    ensures EveryFirm(want, zero, s')
  {
    hide Firm;
  }

  /** So it is in a new cache, if none of the nodes with children on the disk came there as a blob. */
  lemma FreshFirm<K(!new)>(u: Universe<K>, s: Cache<K>)
    requires Closed(u, s.disk, s.plain) && s.d.Keys == {u.zero} && forall h :: h in s.plain ==> u.kids(h) == []
    ensures EveryFirm(u.kids, u.zero, s)
  {}

  ghost predicate NotMeta<K(!new)>(zero: K, h: K) {
    h != zero
  }

  /** Then every root that is referenced or stored stands. */
  lemma EveryStands<K(!new)>(want: K -> seq<K>, u: Universe<K>, s: Cache<K>, size: Sizes, a: K)
    requires Good(u, s, size, [], multiset{}) && EveryFirm(want, u.zero, s) && u.zero in s.d
    requires a in s.disk || Cnt(s.d[u.zero], a) > 0
    requires forall h, c :: c in want(h) ==> NotMeta(u.zero, c)
    ensures Stands(want, u.zero, s, a)
  {
    hide Good;
    hide Cnt;
    hide Firm;
    PlainStored(u, s, size);
    if a !in s.disk {
      RootReadable(u, s, size, a);
    }
    var here := iset h | NotMeta(u.zero, h);
    LeadsInside(want, here, a);
    hide Leads;
  }

  // ---- runs ----

  /** What the owner of a cache may do with it. */
  datatype Op<K> =
    | Insert(h: K, blob: seq<byte>, kids: seq<K>)
    | InsertBlob(h: K, blob: seq<byte>)
    | Reference(h: K)
    | Dereference(h: K)
    | Cap(limit: int, quota: Option<nat>)
    | Commit(h: K, quota: Option<nat>)

  /** Entries are inserted as what they are. */
  ghost predicate Honest<K(!new)>(u: Universe<K>, op: Op<K>) {
    match op
    case Insert(h, blob, kids) => blob == u.blob(h) && kids == u.kids(h)
    case InsertBlob(h, blob) => blob == u.blob(h)
    case _ => true
  }

  /** What is inserted comes with all it wants: nodes want their children only, and blobs nothing. */
  ghost predicate Whole<K(!new)>(want: K -> seq<K>, op: Op<K>) {
    match op
    case Insert(h, _, kids) => forall c :: c in want(h) ==> c in kids
    case InsertBlob(h, _) => want(h) == []
    case _ => true
  }

  ghost predicate Names<K(!new)>(op: Op<K>, h: K) {
    (op.Insert? || op.InsertBlob?) && op.h == h
  }

  /** What a run keeps, of one trie and of all of them. */
  twostate predicate Keeps<K(!new)>(db: Database<K>, want: K -> seq<K>, keep: K, whole: bool, added: iset<K>)
    reads db
  {
    && db.Sane([], multiset{})
    && (forall h :: h in db.dirties || h in db.disk ==> h in old(db.dirties) || h in old(db.disk) || h in added)
    && (old(Stands(want, db.zero, db.Now(), keep)) ==> Stands(want, db.zero, db.Now(), keep))
    && (whole && old(EveryFirm(want, db.zero, db.Now())) ==> EveryFirm(want, db.zero, db.Now()))
  }

  lemma EveryInserted<K(!new)>(want: K -> seq<K>, zero: K, s: Cache<K>, s': Cache<K>, k: K, blob: seq<byte>,
                               kids: seq<K>)
    requires EveryFirm(want, zero, s) && k !in s.d && Inserted(s.d, s'.d, k, blob, kids) && s'.disk == s.disk
    requires forall c :: c in want(k) ==> c in kids
    ensures EveryFirm(want, zero, s')
  {
    hide Firm;
    hide Inserted;
    FirmInserted(want, zero, s, s', k, blob, kids);
  }

  /** Insert and InsertBlob: nothing that stands is affected, whatever was inserted under the same hash before. */
  method StepInsert<K(!new, ==)>(db: Database<K>, h: K, blob: seq<byte>, kids: seq<K>, keep: K, ghost want: K -> seq<K>)
    requires db.Sane([], multiset{}) && blob == db.u.blob(h) && (kids == db.u.kids(h) || kids == [])
    requires h in db.dirties || forall c :: c in kids ==> c in db.dirties || c in db.disk
    modifies db
    ensures Keeps(db, want, keep, forall c :: c in want(h) ==> c in kids, iset{h})
  {
    hide Good;
    hide Stands;
    hide EveryFirm;
    hide Inserted;
    hide Wraps;
    ghost var s, size := db.Now(), db.Bytes();
    if kids == [] {
      db.InsertBlob(h, blob);
    } else {
      db.Insert(h, blob, kids);
    }
    if h !in s.d {
      InsertedEntry(s.d, db.dirties, h, blob, kids);
      if Stands(want, db.zero, s, keep) {
        StandsInserted(want, db.u, s, size, db.Now(), keep, h, blob, kids);
      }
      if (forall c :: c in want(h) ==> c in kids) && EveryFirm(want, db.zero, s) {
        EveryInserted(want, db.zero, s, db.Now(), h, blob, kids);
      }
    }
  }

  method StepReference<K(!new, ==)>(db: Database<K>, h: K, keep: K, ghost want: K -> seq<K>)
    requires db.Sane([], multiset{}) && h != db.zero
    modifies db
    ensures Keeps(db, want, keep, true, iset{})
  {
    hide Good;
    hide Stands;
    hide EveryFirm;
    hide Linked;
    ghost var s, size := db.Now(), db.Bytes();
    Members(db.u, s, size, [], multiset{});
    db.Reference(h, db.zero);
    if h in s.d {
      if Stands(want, db.zero, s, keep) {
        StandsLinked(want, db.zero, s, db.Now(), keep, h);
      }
      FirmLinked(want, db.zero, s, db.Now(), h, db.zero);
      if EveryFirm(want, db.zero, s) {
        EveryStays(want, db.zero, s, db.Now());
      }
    }
  }

  /** A referenced root other than the one to keep, or one that is stored or without parents, is given up. */
  method StepDereference<K(!new, ==)>(db: Database<K>, h: K, keep: K, ghost want: K -> seq<K>)
    requires db.Sane([], multiset{}) && db.zero in db.dirties && h != db.zero && h != keep
    requires h in db.dirties ==> Cnt(db.dirties[db.zero], h) > 0 || h in db.disk || db.dirties[h].parents == 0
    modifies db
    ensures Keeps(db, want, keep, true, iset{})
  {
    hide Good;
    hide Stands;
    hide EveryFirm;
    hide NoLeak;
    hide Unlinked;
    hide AllParented;
    ghost var s, size := db.Now(), db.Bytes();
    db.Dereference(h);
    ghost var s', size' := db.Now(), db.Bytes();
    Members(db.u, s', size', [], multiset{});
    ReleasedKeys(db.u, s, size, s', size');
    if Stands(want, db.zero, s, keep) {
      StandsReleased(want, db.u, s, size, s', size', keep, h);
    }
    FirmReleased(want, db.u, s, size, s', size');
    if EveryFirm(want, db.zero, s) {
      EveryStays(want, db.zero, s, s');
    }
  }

  lemma ReleasedKeys<K(!new)>(u: Universe<K>, s: Cache<K>, size: Sizes, s': Cache<K>, size': Sizes)
    requires Good(u, s, size, [], multiset{}) && Good(u, s', size', [], multiset{})
    requires NoLeak(s.d, s.order, s'.d, s'.order)
    ensures forall h :: h in s'.d ==> h in s.d
  {
    hide Good;
    hide Sum;
    hide Distinct;
    OrderKeys(u, s, size);
    OrderKeys(u, s', size');
  }

  lemma KeptKeys<K(!new)>(s: Cache<K>, s': Cache<K>)
    requires Kept(s, s')
    ensures forall h :: h in s'.d || h in s'.disk ==> h in s.d || h in s.disk
  {
    hide Cnt;
  }

  lemma KeptKeeps<K(!new)>(u: Universe<K>, s: Cache<K>, size: Sizes, s': Cache<K>, size': Sizes, want: K -> seq<K>,
                           keep: K)
    requires Good(u, s, size, [], multiset{}) && Good(u, s', size', [], multiset{}) && Kept(s, s')
    ensures Stands(want, u.zero, s, keep) ==> Stands(want, u.zero, s', keep)
    ensures EveryFirm(want, u.zero, s) ==> EveryFirm(want, u.zero, s')
  {
    hide Good;
    hide Stands;
    hide EveryFirm;
    hide Kept;
    if Stands(want, u.zero, s, keep) {
      StandsKept(want, u, s, size, s', size', keep);
    }
    FirmKept(want, u.zero, s, s');
    if EveryFirm(want, u.zero, s) {
      EveryStays(want, u.zero, s, s');
    }
  }

  method StepDisk<K(!new, ==)>(db: Database<K>, op: Op<K>, keep: K, ghost want: K -> seq<K>)
    requires db.Sane([], multiset{}) && (op.Cap? || (op.Commit? && op.h != db.zero))
    modifies db
    ensures Keeps(db, want, keep, true, iset{})
  {
    hide Good;
    hide Stands;
    hide EveryFirm;
    hide Kept;
    hide Reaches;
    hide AllSmall;
    hide TrueWeight;
    hide GoneMaps;
    hide Sum;
    ghost var s, size := db.Now(), db.Bytes();
    if op.Cap? {
      var _ := db.Cap(op.limit, op.quota);
    } else {
      var ok, left;
      ghost var gone;
      ok, left, gone := db.Commit(op.h, op.quota);
    }
    KeptKeeps(db.u, s, size, db.Now(), db.Bytes(), want, keep);
    KeptKeys(s, db.Now());
  }

  /** One call. Children are inserted before their parents, and only roots that are referenced are given up. */
  method Step<K(!new, ==)>(db: Database<K>, op: Op<K>, keep: K, ghost want: K -> seq<K>)
    requires db.Sane([], multiset{}) && Honest(db.u, op)
    modifies db
    ensures Keeps(db, want, keep, Whole(want, op), iset h | Names(op, h))
  {
    hide Good;
    hide Stands;
    hide EveryFirm;
    Members(db.u, db.Now(), db.Bytes(), [], multiset{});
    match op
    case Insert(h, blob, kids) =>
      if h in db.dirties || forall c :: c in kids ==> c in db.dirties || c in db.disk {
        StepInsert(db, h, blob, kids, keep, want);
      }
    case InsertBlob(h, blob) =>
      StepInsert(db, h, blob, [], keep, want);
    case Reference(h) =>
      if h != db.zero {
        StepReference(db, h, keep, want);
      }
    case Dereference(h) =>
      if h != db.zero && h != keep
         && (h !in db.dirties || Cnt(db.dirties[db.zero], h) > 0 || h in db.disk || db.dirties[h].parents == 0) {
        StepDereference(db, h, keep, want);
      }
    case Cap(_, _) =>
      StepDisk(db, op, keep, want);
    case Commit(h, _) =>
      if h != db.zero {
        StepDisk(db, op, keep, want);
      }
  }

  /**
   * Whatever is done with the cache, whichever disk writes fail, a trie that stands and is not given up
   * can be read completely. If everything inserted comes with all it wants, which for tries means that
   * no blob is a node with children, and so did what was there before, that goes for every trie whose
   * root is referenced or stored.
   */
  method Run<K(!new, ==)>(db: Database<K>, ops: seq<Op<K>>, keep: K, ghost want: K -> seq<K>)
    requires db.Sane([], multiset{}) && forall op :: op in ops ==> Honest(db.u, op)
    modifies db
    ensures db.Sane([], multiset{}) && db.zero in db.dirties
    ensures forall h :: h in db.dirties || h in db.disk ==>
      h in old(db.dirties) || h in old(db.disk) || exists op :: op in ops && Names(op, h)
    ensures old(Stands(want, db.zero, db.Now(), keep)) ==>
      Stands(want, db.zero, db.Now(), keep) && AllHeld(want, db.zero, db.Now(), keep)
    ensures (forall op :: op in ops ==> Whole(want, op)) && old(EveryFirm(want, db.zero, db.Now())) ==>
      EveryFirm(want, db.zero, db.Now())
  {
    hide Good;
    hide Stands;
    hide EveryFirm;
    hide AllHeld;
    for i := 0 to |ops|
      invariant db.Sane([], multiset{})
      invariant forall h :: h in db.dirties || h in db.disk ==>
        h in old(db.dirties) || h in old(db.disk) || exists op :: op in ops && Names(op, h)
      invariant old(Stands(want, db.zero, db.Now(), keep)) ==> Stands(want, db.zero, db.Now(), keep)
      invariant (forall op :: op in ops ==> Whole(want, op)) && old(EveryFirm(want, db.zero, db.Now())) ==>
        EveryFirm(want, db.zero, db.Now())
    {
      Step(db, ops[i], keep, want);
    }
    ghost var s, size := db.Now(), db.Bytes();
    Members(db.u, s, size, [], multiset{});
    if Stands(want, db.zero, s, keep) {
      StandsHeld(want, db.u, s, size, keep);
    }
  }

  /** From a new cache on: every trie whose root is referenced or stored can be read completely. */
  method RunFromNew<K(!new, ==)>(zero: K, disk: map<K, seq<byte>>, ghost u: Universe<K>, ghost plain: set<K>,
                                 ops: seq<Op<K>>)
    returns (db: Database<K>)
    requires u.Valid() && u.zero == zero && Closed(u, disk, plain) && forall h :: h in plain ==> u.kids(h) == []
    requires forall op :: op in ops ==> Honest(u, op) && (op.InsertBlob? ==> u.kids(op.h) == [])
    ensures fresh(db) && db.u == u && db.zero == zero && db.Sane([], multiset{}) && zero in db.dirties
    ensures forall a :: a in db.disk || Cnt(db.dirties[zero], a) > 0 ==> AllHeld(u.kids, zero, db.Now(), a)
  {
    hide Good;
    hide Stands;
    hide AllHeld;
    hide Cnt;
    db := new Database<K>(zero, disk, u, plain);
    FreshFirm(u, db.Now());
    hide EveryFirm;
    hide Closed;
    Run(db, ops, zero, u.kids);
    forall a | a in db.disk || Cnt(db.dirties[zero], a) > 0
      ensures AllHeld(u.kids, zero, db.Now(), a)
    {
      KidsNotMeta(u);
      EveryStands(u.kids, u, db.Now(), db.Bytes(), a);
      StandsHeld(u.kids, u, db.Now(), db.Bytes(), a);
    }
  }

  lemma KidsNotMeta<K(!new)>(u: Universe<K>)
    requires u.Valid()
    ensures forall h, c :: c in u.kids(h) ==> NotMeta(u.zero, c)
  {
    forall h, c | c in u.kids(h)
      ensures NotMeta(u.zero, c)
    {
      KidLies(u, h, c);
    }
  }

  // ---- a node that is first inserted as a blob ----

  /** 3 and 4 are roots; 3 has the child 2, and 2 and 4 have the child 1. */
  function ChainUniverse(): (u: Universe<nat>) {
    Universe(0, (h: nat) => [], (h: nat) => if h == 2 || h == 4 then [1] else if h == 3 then [2] else [], (h: nat) => h)
  }

  lemma ChainedFacts()
    ensures var u := ChainUniverse();
      && u.Valid() && u.zero == 0 && Closed(u, map[], {}) && Leads(u.kids, 3, 1)
      && (forall h :: u.blob(h) == []) && u.kids(1) == [] && u.kids(2) == [1] && u.kids(3) == [2] && u.kids(4) == [1]
  {
    var u := ChainUniverse();
    LeadsSelf(u.kids, 3);
    LeadsStep(u.kids, 3, 3, 2);
    LeadsStep(u.kids, 3, 2, 1);
  }

  /** 2 is cached without its child, and 3, which refers to it, is referenced. */
  ghost predicate Spoilt(s: Cache<nat>) {
    && s.d.Keys == {0, 1, 2, 3} && s.disk == map[] && s.order == [2, 1, 3]
    && s.d[1].kids == [] && s.d[2].kids == [] && s.d[3].kids == [2] && s.d[0].kids == []
    && s.d[1].children == None && s.d[2].children == None && s.d[3].children == None
    && s.d[0].children == Some(map[3 := 1])
  }

  method SpoiltCache() returns (db: Database<nat>)
    ensures fresh(db) && db.u == ChainUniverse() && db.zero == 0 && db.Sane([], multiset{}) && Spoilt(db.Now())
  {
    hide Good;
    hide Inserted;
    hide Wraps;
    hide Closed;
    hide ChainUniverse;
    hide Leads;
    ChainedFacts();
    db := new Database<nat>(0, map[], ChainUniverse(), {});
    SpoiltEntries(db);
    ghost var s, size := db.Now(), db.Bytes();
    MetaKids(db.u, s, size);
    db.Reference(3, 0);
  }

  /** After the blob and the child: the node under the blob's hash, which is skipped, and its parent. */
  method SpoiltEntries(db: Database<nat>)
    requires db.u == ChainUniverse() && db.zero == 0 && db.Sane([], multiset{}) && db.disk == map[] && db.order == []
    requires db.dirties.Keys == {0} && db.dirties[0].children == Some(map[])
    modifies db
    ensures db.Sane([], multiset{}) && db.disk == map[] && db.order == [2, 1, 3] && db.dirties.Keys == {0, 1, 2, 3}
    ensures db.dirties[1].kids == [] && db.dirties[2].kids == [] && db.dirties[3].kids == [2]
    ensures db.dirties[1].children == None && db.dirties[2].children == None && db.dirties[3].children == None
    ensures db.dirties[0].children == Some(map[])
  {
    hide Good;
    hide Inserted;
    hide Wraps;
    hide Closed;
    hide ChainUniverse;
    hide Leads;
    ChainedFacts();
    BlobAndChild(db);
    db.Insert(2, [], [1]);
    ghost var d := db.dirties;
    db.Insert(3, [], [2]);
    InsertedEntry(d, db.dirties, 3, [], [2]);
  }

  method BlobAndChild(db: Database<nat>)
    requires db.u == ChainUniverse() && db.zero == 0 && db.Sane([], multiset{}) && db.disk == map[] && db.order == []
    requires db.dirties.Keys == {0} && db.dirties[0].children == Some(map[])
    modifies db
    ensures db.Sane([], multiset{}) && db.disk == map[] && db.order == [2, 1] && db.dirties.Keys == {0, 1, 2}
    ensures db.dirties[1].kids == [] && db.dirties[2].kids == []
    ensures db.dirties[1].children == None && db.dirties[2].children == None && db.dirties[0].children == Some(map[])
  {
    hide Good;
    hide Inserted;
    hide Wraps;
    hide Closed;
    hide ChainUniverse;
    hide Leads;
    ChainedFacts();
    ghost var d0 := db.dirties;
    db.InsertBlob(2, []);
    ghost var d1 := db.dirties;
    InsertedEntry(d0, d1, 2, [], []);
    db.Insert(1, [], []);
    InsertedEntry(d1, db.dirties, 1, [], []);
  }

  /** From 3 one gets to 3 and 2 only. */
  lemma SpoiltReach(s: Cache<nat>)
    requires Spoilt(s)
    ensures forall x :: Reaches(s.d, 3, x) <==> x == 3 || x == 2
  {
    SpoiltCounts(s);
    ReachSelf(s.d, 3);
    ReachSelf(s.d, 2);
    ReachStep(s.d, 3, 2, 2);
    forall x | Reaches(s.d, 3, x)
      ensures x == 3 || x == 2
    {
      var p :| Path(s.d, p) && p[0] == 3 && p[|p| - 1] == x;
      SpoiltPath(s, p);
    }
  }

  lemma SpoiltCounts(s: Cache<nat>)
    requires Spoilt(s)
    ensures forall c :: Cnt(s.d[1], c) == 0 && Cnt(s.d[2], c) == 0 && (Cnt(s.d[3], c) > 0 <==> c == 2)
  {}

  lemma {:induction false} SpoiltPath(s: Cache<nat>, p: seq<nat>)
    requires Spoilt(s) && Path(s.d, p) && (p[0] == 3 || p[0] == 2)
    ensures p[|p| - 1] == 3 || p[|p| - 1] == 2
    decreases |p|
  {
    SpoiltCounts(s);
    if |p| > 1 {
      SpoiltPath(s, p[1..]);
    }
  }

  /**
   * The root of a trie is committed: it and the node below it are on disk, and the child of that node
   * is not. The trie cannot be read from disk.
   */
  method BlobThenCommit() returns (db: Database<nat>)
    ensures fresh(db) && db.u == ChainUniverse() && db.Sane([], multiset{})
    ensures db.disk.Keys == {2, 3} && db.plain == {2} && Leads(db.u.kids, 3, 1)
  {
    hide Cnt;
    hide NoLeak;
    hide Weight;
    hide Closed;
    hide Good;
    hide Kept;
    hide Reaches;
    hide Leads;
    hide AllSmall;
    hide TrueWeight;
    hide GoneMaps;
    hide Sum;
    hide ChainUniverse;
    ChainedFacts();
    db := SpoiltCache();
    ghost var s := db.Now();
    SpoiltReach(s);
    PlainStored(db.u, s, db.Bytes());
    var ok, left;
    ghost var gone;
    ok, left, gone := db.Commit(3, None);
    assert gone == {2, 3};
    SpoiltDisk(db.u, s, db.Now(), db.Bytes());
  }

  lemma SpoiltRoot(s: Cache<nat>, s': Cache<nat>)
    requires Spoilt(s) && Kept(s, s') && s.plain == {}
    ensures 3 !in s'.plain
  {
    hide Cnt;
  }

  lemma SpoiltDisk(u: Universe<nat>, s: Cache<nat>, s': Cache<nat>, size: Sizes)
    requires u == ChainUniverse() && Good(u, s', size, [], multiset{}) && Spoilt(s) && Kept(s, s')
    requires s.plain == {} && s'.disk.Keys == {2, 3}
    ensures s'.plain == {2}
  {
    hide *;
    ChainedFacts();
    SpoiltRoot(s, s');
    PlainStored(u, s', size);
    if 2 !in s'.plain {
      StoredKids(u, s', size, 2, 1);
    }
  }

  /** A node that had parents, and to which nothing refers any more, is gone. */
  lemma ReleasedGone<K(!new)>(u: Universe<K>, s: Cache<K>, s': Cache<K>, size': Sizes, x: K)
    requires Good(u, s', size', [], multiset{}) && NoLeak(s.d, s.order, s'.d, s'.order)
    requires x in s.d && x != u.zero && s.d[x].parents > 0 && x !in s'.disk
    requires u.zero in s'.d && Cnt(s'.d[u.zero], x) == 0
    requires forall h :: h in s'.order && h in s'.d ==> Cnt(s'.d[h], x) == 0
    ensures x !in s'.d
  {
    hide Cnt;
    hide Forward;
    hide Backward;
    hide Placed;
    hide Genuine;
    hide Closed;
    hide Weight;
    SumZero(CountOf(s'.d, x), s'.order);
  }

  /** Another root that refers to 1. */
  ghost predicate Doubled(s: Cache<nat>) {
    && s.d.Keys == {0, 1, 2, 3, 4} && s.disk == map[]
    && s.d[1].kids == [] && s.d[2].kids == [] && s.d[3].kids == [2] && s.d[4].kids == [1] && s.d[0].kids == []
    && s.d[1].children == None && s.d[2].children == None && s.d[3].children == None && s.d[4].children == None
    && s.d[0].children == Some(map[3 := 1, 4 := 1]) && s.d[1].parents > 0 && s.d[4].parents > 0
  }

  method DoubledCache() returns (db: Database<nat>)
    ensures fresh(db) && db.u == ChainUniverse() && db.zero == 0 && db.Sane([], multiset{}) && Doubled(db.Now())
  {
    hide Good;
    hide Inserted;
    hide Wraps;
    hide ChainUniverse;
    hide Leads;
    ChainedFacts();
    db := SpoiltCache();
    ghost var d := db.dirties;
    db.Insert(4, [], [1]);
    InsertedEntry(d, db.dirties, 4, [], [1]);
    InsertedParents(d, db.dirties, 4, [], [1], 1);
    db.Reference(4, 0);
  }

  /**
   * The trie with the root 3 is still referenced, and nobody has given it up. When the other trie is
   * given up, 1 is deleted, and is neither in the cache nor on disk.
   */
  method BlobThenRelease() returns (db: Database<nat>)
    ensures fresh(db) && db.u == ChainUniverse() && db.zero == 0 && db.Sane([], multiset{})
    ensures 0 in db.dirties && Cnt(db.dirties[0], 3) > 0 && Leads(db.u.kids, 3, 1) && !Readable(0, db.Now(), 1)
  {
    hide Good;
    hide NoLeak;
    hide Unlinked;
    hide AllParented;
    hide Leads;
    hide ChainUniverse;
    ChainedFacts();
    db := DoubledCache();
    ghost var s := db.Now();
    ghost var size := db.Bytes();
    db.Dereference(4);
    Members(db.u, db.Now(), db.Bytes(), [], multiset{});
    DoubledReleased(db.u, s, size, db.Now(), db.Bytes());
  }

  lemma DoubledCounts(s: Cache<nat>, h: nat)
    requires Doubled(s) && h in s.d && h != 0
    ensures Cnt(s.d[h], 4) == 0 && (h != 4 ==> Cnt(s.d[h], 1) == 0)
  {}

  lemma DoubledRoots(s: Cache<nat>, e: CachedNode<nat>)
    requires Doubled(s) && e.kids == [] && e.children == Unlinked(s.d[0], 4).children
    ensures Cnt(e, 4) == 0 && Cnt(e, 1) == 0 && Cnt(e, 3) > 0
  {}

  lemma DoubledReleased(u: Universe<nat>, s: Cache<nat>, size: Sizes, s': Cache<nat>, size': Sizes)
    requires u == ChainUniverse() && Doubled(s) && Good(u, s, size, [], multiset{})
    requires Good(u, s', size', [], multiset{}) && s'.disk == s.disk && NoLeak(s.d, s.order, s'.d, s'.order)
    requires 0 in s'.d && s'.d[0].children == Unlinked(s.d[0], 4).children
    ensures Cnt(s'.d[0], 3) > 0 && 1 !in s'.d
  {
    hide Good;
    hide Cnt;
    hide Unlinked;
    hide Sum;
    hide Distinct;
    MetaKids(u, s', size');
    DoubledRoots(s, s'.d[0]);
    OrderKeys(u, s, size);
    OrderKeys(u, s', size');
    forall h | h in s'.order
      ensures Cnt(s'.d[h], 4) == 0 && (h != 4 ==> Cnt(s'.d[h], 1) == 0)
    {
      DoubledCounts(s, h);
      CntSame(s.d[h], s'.d[h]);
    }
    hide NoLeak;
    ReleasedGone(u, s, s', size', 4);
    ReleasedGone(u, s, s', size', 1);
  }
}
