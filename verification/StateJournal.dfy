/**
 * The state journal (proton/core/state/journal.go, state_object.go, statedb.go): every change to
 * an account leaves an entry that undoes it, while loading from the committed tries leaves none.
 */
module StateJournal {
  import opened Bytes

  type Addr = seq<byte>
  type Word = seq<byte>

  datatype Account = Account(nonce: nat, balance: int, root: Word, codeHash: Word)

  /** The committed state: accounts, storage under a storage root, and code under its hash. */
  datatype Committed = Committed(
    account: Addr -> Option<Account>, storage: (Word, Word) -> Word, code: Word -> Option<seq<byte>>,
    codeHash: seq<byte> -> Word, emptyRoot: Word, emptyCodeHash: Word)

  /** A cached account: its data, its code once loaded or set, and its three layers of storage. */
  datatype Object = Object(
    data: Account, code: Option<seq<byte>>, origin: map<Word, Word>, pending: map<Word, Word>, dirty: map<Word, Word>,
    dirtyCode: bool, deleted: bool)

  type Objects = map<Addr, Object>

  function NewObject(data: Account): (o: Object) {
    Object(data, None, map[], map[], map[], false, false)
  }

  // ---- what can be observed ----

  /** getDeletedStateObject: the cached object, or the one loaded from the trie. */
  function Find(w: Committed, objs: Objects, a: Addr): (o: Option<Object>) {
    if a in objs then Some(objs[a])
    else if w.account(a).Some? then Some(NewObject(w.account(a).value))
    else None
  }

  /** getStateObject: deleted ones do not exist. */
  function Live(w: Committed, objs: Objects, a: Addr): (o: Option<Object>) {
    var f := Find(w, objs, a);
    if f.Some? && !f.value.deleted then f else None
  }

  function CodeOf(w: Committed, o: Object): (c: Option<seq<byte>>) {
    if o.code.Some? then o.code
    else if o.data.codeHash == w.emptyCodeHash then None
    else w.code(o.data.codeHash)
  }

  function CommittedAt(w: Committed, o: Object, k: Word): (v: Word) {
    if k in o.pending then o.pending[k]
    else if k in o.origin then o.origin[k]
    else w.storage(o.data.root, k)
  }

  function StateAt(w: Committed, o: Object, k: Word): (v: Word) {
    if k in o.dirty then o.dirty[k] else CommittedAt(w, o, k)
  }

  /** The two objects look the same from outside. */
  ghost predicate Alike(w: Committed, a: Object, b: Object) {
    && a.data == b.data && CodeOf(w, a) == CodeOf(w, b) && a.deleted == b.deleted
    && forall k :: StateAt(w, a, k) == StateAt(w, b, k) && CommittedAt(w, a, k) == CommittedAt(w, b, k)
  }

  ghost predicate AlikeOpt(w: Committed, a: Option<Object>, b: Option<Object>) {
    a.Some? == b.Some? && (a.Some? ==> Alike(w, a.value, b.value))
  }

  /** Every account has the same existence, balance, nonce, code and storage in both. */
  ghost predicate SameView(w: Committed, s: Objects, t: Objects) {
    forall a: Addr :: AlikeOpt(w, Live(w, s, a), Live(w, t, a))
  }

  lemma AlikeTrans(w: Committed, a: Object, b: Object, c: Object)
    requires Alike(w, a, b) && Alike(w, b, c)
    ensures Alike(w, a, c) && Alike(w, b, a)
  {}

  lemma ViewTrans(w: Committed, r: Objects, s: Objects, t: Objects)
    requires SameView(w, r, s) && SameView(w, s, t)
    ensures SameView(w, r, t)
  {
    hide Live;
    hide Alike;
    forall a: Addr
      ensures AlikeOpt(w, Live(w, r, a), Live(w, t, a))
    {
      assert AlikeOpt(w, Live(w, r, a), Live(w, s, a)) && AlikeOpt(w, Live(w, s, a), Live(w, t, a));
      if Live(w, r, a).Some? {
        AlikeTrans(w, Live(w, r, a).value, Live(w, s, a).value, Live(w, t, a).value);
      }
    }
  }

  lemma ViewSelf(w: Committed, s: Objects)
    ensures SameView(w, s, s)
  {}

  // ---- the journal ----

  datatype Entry =
    | Create(account: Addr)
    | Reset(owner: Addr, object: Object)
    | BalanceChange(account: Addr, balance: int)
    | NonceChange(account: Addr, nonce: nat)
    | CodeChange(account: Addr, code: Option<seq<byte>>, hash: Word)
    | StorageChange(account: Addr, key: Word, value: Word)

  /** The address an entry makes dirty, if any. */
  function Dirtied(e: Entry): (a: Option<Addr>) {
    if e.Reset? then None else Some(e.account)
  }

  /** What an entry sets back in an object. */
  function Restored(o: Object, e: Entry): (r: Object)
    requires !e.Create? && !e.Reset?
  {
    match e
    case BalanceChange(_, b) => o.(data := o.data.(balance := b))
    case NonceChange(_, n) => o.(data := o.data.(nonce := n))
    case CodeChange(_, c, h) => o.(code := c, data := o.data.(codeHash := h), dirtyCode := true)
    case StorageChange(_, k, v) => o.(dirty := o.dirty[k := v])
  }

  /** revert of one entry; changes need the object they were made to. */
  ghost predicate Revertible(w: Committed, objs: Objects, e: Entry) {
    e.Create? || e.Reset? || Live(w, objs, e.account).Some?
  }

  function Reverted(w: Committed, objs: Objects, e: Entry): (r: Objects)
    requires Revertible(w, objs, e)
  {
    match e
    case Create(a) => objs - {a}
    case Reset(a, o) => objs[a := o]
    case _ => objs[e.account := Restored(Live(w, objs, e.account).value, e)]
  }

  lemma RestoredAlike(w: Committed, a: Object, b: Object, e: Entry)
    requires Alike(w, a, b) && !e.Create? && !e.Reset?
    ensures Alike(w, Restored(a, e), Restored(b, e))
  {
    hide StateAt;
    hide CommittedAt;
    forall k
      ensures StateAt(w, Restored(a, e), k) == StateAt(w, Restored(b, e), k)
      ensures CommittedAt(w, Restored(a, e), k) == CommittedAt(w, Restored(b, e), k)
    {
      assert StateAt(w, a, k) == StateAt(w, b, k);
      RestoredSlot(w, a, e, k);
      RestoredSlot(w, b, e, k);
    }
  }

  lemma RestoredSlot(w: Committed, o: Object, e: Entry, k: Word)
    requires !e.Create? && !e.Reset?
    ensures CommittedAt(w, Restored(o, e), k) == CommittedAt(w, o, k)
    ensures StateAt(w, Restored(o, e), k) == if e.StorageChange? && k == e.key then e.value else StateAt(w, o, k)
  {}

  /** Undoing an entry treats alike what looks alike. */
  lemma RevertedSame(w: Committed, s: Objects, t: Objects, e: Entry)
    requires SameView(w, s, t) && Revertible(w, t, e)
    ensures Revertible(w, s, e) && SameView(w, Reverted(w, s, e), Reverted(w, t, e))
  {
    hide Alike;
    hide Restored;
    hide Live;
    hide Reverted;
    var a := if e.Reset? then e.owner else e.account;
    assert AlikeOpt(w, Live(w, s, a), Live(w, t, a));
    if !e.Create? && !e.Reset? {
      RestoredAlike(w, Live(w, s, a).value, Live(w, t, a).value, e);
    }
    AlikeSelf(w);
    forall x: Addr
      ensures AlikeOpt(w, Live(w, Reverted(w, s, e), x), Live(w, Reverted(w, t, e), x))
    {
      assert AlikeOpt(w, Live(w, s, x), Live(w, t, x));
      LiveReverted(w, s, e, x);
      LiveReverted(w, t, e, x);
    }
  }

  /** What is found under an address after undoing an entry. */
  lemma LiveReverted(w: Committed, s: Objects, e: Entry, x: Addr)
    requires Revertible(w, s, e)
    ensures Live(w, Reverted(w, s, e), x) ==
      if x != (if e.Reset? then e.owner else e.account) then Live(w, s, x)
      else match e
           case Create(_) => Live(w, map[], x)
           case Reset(_, o) => Live(w, map[x := o], x)
           case _ => Some(Restored(Live(w, s, x).value, e))
  {}

  lemma AlikeSelf(w: Committed)
    ensures forall o :: Alike(w, o, o)
  {}

  // ---- undoing ----

  /** Undoing the entry in the later state leads back to the earlier one. */
  ghost predicate Undoes(w: Committed, e: Entry, before: Objects, after: Objects) {
    Revertible(w, after, e) && SameView(w, Reverted(w, after, e), before)
  }

  lemma UndoesSame(w: Committed, e: Entry, before: Objects, before': Objects, after: Objects, after': Objects)
    requires Undoes(w, e, before, after) && SameView(w, after', after) && SameView(w, before, before')
    ensures Undoes(w, e, before', after')
  {
    hide SameView;
    hide Revertible;
    RevertedSame(w, after', after, e);
    ViewTrans(w, Reverted(w, after', e), Reverted(w, after, e), before);
    ViewTrans(w, Reverted(w, after', e), before, before');
  }

  /** Putting an object that looks like the one found changes nothing. */
  lemma CacheSame(w: Committed, objs: Objects, a: Addr, o: Object)
    requires Find(w, objs, a).Some? && Alike(w, o, Find(w, objs, a).value)
    ensures SameView(w, objs[a := o], objs)
  {
    hide Alike;
    AlikeSelf(w);
    AlikeFlag(w, o, Find(w, objs, a).value);
  }

  lemma AlikeFlag(w: Committed, a: Object, b: Object)
    requires Alike(w, a, b)
    ensures a.deleted == b.deleted
  {}

  lemma ChangeUndoes(w: Committed, objs: Objects, a: Addr, o: Object, o': Object, e: Entry)
    requires Live(w, objs, a) == Some(o) && !o'.deleted && !e.Create? && !e.Reset? && e.account == a
    requires Alike(w, Restored(o', e), o)
    ensures Undoes(w, e, objs, objs[a := o'])
  {
    hide Alike;
    hide Restored;
    AlikeSelf(w);
    var r := Restored(o', e);
    assert Reverted(w, objs[a := o'], e) == objs[a := r] by {
      assert objs[a := o'][a := r] == objs[a := r];
    }
    CacheSame(w, objs, a, r);
  }

  lemma CreateUndoes(w: Committed, objs: Objects, a: Addr, o: Object)
    requires Find(w, objs, a) == None
    ensures Undoes(w, Create(a), objs, objs[a := o])
  {
    assert objs[a := o] - {a} == objs;
    ViewSelf(w, objs);
  }

  lemma ResetUndoes(w: Committed, objs: Objects, a: Addr, o: Object)
    requires Find(w, objs, a).Some?
    ensures Undoes(w, Reset(a, Find(w, objs, a).value), objs, objs[a := o])
  {
    var prev := Find(w, objs, a).value;
    assert objs[a := o][a := prev] == objs[a := prev];
    AlikeSelf(w);
    CacheSame(w, objs, a, prev);
  }

  // ---- counting dirty entries ----

  function Count(es: seq<Entry>, a: Addr): (n: nat) {
    if es == [] then 0 else Count(es[..|es| - 1], a) + if Dirtied(es[|es| - 1]) == Some(a) then 1 else 0
  }

  ghost predicate Counts(d: map<Addr, int>, es: seq<Entry>) {
    forall a: Addr :: (a in d <==> Count(es, a) > 0) && (a in d ==> d[a] == Count(es, a))
  }

  lemma CountsUnique(d: map<Addr, int>, d': map<Addr, int>, es: seq<Entry>)
    requires Counts(d, es) && Counts(d', es)
    ensures d == d'
  {
    hide Count;
  }

  function Marked(d: map<Addr, int>, e: Entry): (d': map<Addr, int>) {
    match Dirtied(e)
    case None => d
    case Some(a) => d[a := if a in d then d[a] + 1 else 1]
  }

  function Unmarked(d: map<Addr, int>, e: Entry): (d': map<Addr, int>) {
    match Dirtied(e)
    case None => d
    case Some(a) => if a in d && d[a] != 1 then d[a := d[a] - 1] else d - {a}
  }

  lemma MarkCounts(d: map<Addr, int>, es: seq<Entry>, e: Entry)
    requires Counts(d, es)
    ensures Counts(Marked(d, e), es + [e])
  {
    assert (es + [e])[..|es|] == es;
    forall a: Addr
      ensures Count(es + [e], a) == Count(es, a) + if Dirtied(e) == Some(a) then 1 else 0
    {}
    hide Count;
  }

  lemma UnmarkCounts(d: map<Addr, int>, es: seq<Entry>)
    requires Counts(d, es) && es != []
    ensures Counts(Unmarked(d, es[|es| - 1]), es[..|es| - 1])
  {
    var e := es[|es| - 1];
    forall a: Addr
      ensures Count(es, a) == Count(es[..|es| - 1], a) + if Dirtied(e) == Some(a) then 1 else 0
    {}
    hide Count;
  }

  // ---- the state ----

  /** The state as it was before entry i was made. */
  ghost function At(past: seq<Objects>, objs: Objects, i: nat): (o: Objects) {
    if i < |past| then past[i] else objs
  }

  ghost predicate Logged(w: Committed, es: seq<Entry>, past: seq<Objects>, objs: Objects) {
    |past| == |es| && forall i :: 0 <= i < |es| ==> Undoes(w, es[i], past[i], At(past, objs, i + 1))
  }

  /** Unlogged changes must not show. */
  lemma LoggedSame(w: Committed, es: seq<Entry>, past: seq<Objects>, objs: Objects, objs': Objects)
    requires Logged(w, es, past, objs) && SameView(w, objs', objs)
    ensures Logged(w, es, past, objs')
  {
    hide Undoes;
    forall i | 0 <= i < |es|
      ensures Undoes(w, es[i], past[i], At(past, objs', i + 1))
    {
      if i == |es| - 1 {
        ViewSelf(w, past[i]);
        UndoesSame(w, es[i], past[i], past[i], objs, objs');
      }
    }
  }

  lemma LogOne(w: Committed, es: seq<Entry>, past: seq<Objects>, objs: Objects, e: Entry, objs': Objects)
    requires Logged(w, es, past, objs) && Undoes(w, e, objs, objs')
    ensures Logged(w, es + [e], past + [objs], objs')
  {
    hide Undoes;
  }

  /** The journal with the states between its entries and the current one. */
  datatype History = History(es: seq<Entry>, past: seq<Objects>, objs: Objects)

  /** All earlier states are still there to go back to. */
  ghost predicate Extends(w: Committed, h: History, h': History) {
    && h.es <= h'.es && |h.past| == |h.es| && |h'.past| == |h'.es|
    && forall i :: 0 <= i <= |h.es| ==> SameView(w, At(h'.past, h'.objs, i), At(h.past, h.objs, i))
  }

  lemma ExtendsTrans(w: Committed, a: History, b: History, c: History)
    requires Extends(w, a, b) && Extends(w, b, c)
    ensures Extends(w, a, c)
  {
    hide SameView;
    forall i | 0 <= i <= |a.es|
      ensures SameView(w, At(c.past, c.objs, i), At(a.past, a.objs, i))
    {
      ViewTrans(w, At(c.past, c.objs, i), At(b.past, b.objs, i), At(a.past, a.objs, i));
    }
  }

  lemma ExtendsCache(w: Committed, h: History, objs: Objects)
    requires |h.past| == |h.es| && SameView(w, objs, h.objs)
    ensures Extends(w, h, h.(objs := objs))
  {
    hide SameView;
    forall i | 0 <= i <= |h.es|
      ensures SameView(w, At(h.past, objs, i), At(h.past, h.objs, i))
    {
      ViewSelf(w, At(h.past, h.objs, i));
    }
  }

  lemma ExtendsLog(w: Committed, h: History, e: Entry, objs: Objects)
    requires |h.past| == |h.es|
    ensures Extends(w, h, History(h.es + [e], h.past + [h.objs], objs))
  {
    hide SameView;
    forall i | 0 <= i <= |h.es|
      ensures SameView(w, At(h.past + [h.objs], objs, i), At(h.past, h.objs, i))
    {
      ViewSelf(w, At(h.past, h.objs, i));
    }
  }

  class StateDB {
    const w: Committed
    var objects: Objects
    var entries: seq<Entry>
    var dirties: map<Addr, int>
    ghost var past: seq<Objects>

    ghost predicate Valid()
      reads this
    {
      Logged(w, entries, past, objects) && Counts(dirties, entries)
    }

    ghost function Now(): (h: History)
      reads this
    {
      History(entries, past, objects)
    }

    constructor (w: Committed)
      ensures Valid() && this.w == w && objects == map[] && entries == []
    {
      this.w, objects, entries, dirties, past := w, map[], [], map[], [];
    }

    /** A cached object is replaced by one that looks the same. */
    method Cache(a: Addr, o: Object)
      requires Valid() && Find(w, objects, a).Some? && Alike(w, o, Find(w, objects, a).value)
      modifies `objects
      ensures Valid() && Extends(w, old(Now()), Now()) && objects == old(objects)[a := o]
    {
      hide Logged;
      hide Alike;
      hide SameView;
      CacheSame(w, objects, a, o);
      LoggedSame(w, entries, past, objects, objects[a := o]);
      PastLength(w, entries, past, objects);
      ExtendsCache(w, Now(), objects[a := o]);
      objects := objects[a := o];
    }

    /** A change with the entry that undoes it. */
    method Log(e: Entry, next: Objects)
      requires Valid() && Undoes(w, e, objects, next)
      modifies this
      ensures Valid() && Extends(w, old(Now()), Now()) && objects == next && entries == old(entries) + [e]
    {
      hide Logged;
      hide Undoes;
      hide Counts;
      hide SameView;
      LogOne(w, entries, past, objects, e, next);
      MarkCounts(dirties, entries, e);
      PastLength(w, entries, past, objects);
      ExtendsLog(w, Now(), e, next);
      entries := entries + [e];
      dirties := Marked(dirties, e);
      past := past + [objects];
      objects := next;
    }

    /** getDeletedStateObject. */
    method Load(a: Addr) returns (o: Option<Object>)
      requires Valid()
      modifies `objects
      ensures Valid() && Extends(w, old(Now()), Now())
      ensures o == old(Find(w, objects, a)) == Find(w, objects, a)
      ensures o.Some? ==> a in objects && objects[a] == o.value
      ensures forall x :: x != a ==>
        (x in objects <==> x in old(objects)) && (x in objects ==> objects[x] == old(objects)[x])
    {
      hide SameView;
      hide Logged;
      hide Counts;
      hide Alike;
      AlikeSelf(w);
      o := Find(w, objects, a);
      if o.Some? {
        Cache(a, o.value);
      } else {
        PastLength(w, entries, past, objects);
        ViewSelf(w, objects);
        ExtendsCache(w, Now(), objects);
      }
    }

    /** GetOrNewStateObject: a missing or deleted account is replaced by a fresh one. */
    method GetOrNew(a: Addr) returns (o: Object)
      requires Valid()
      modifies this
      ensures Valid() && Extends(w, old(Now()), Now())
      ensures a in objects && objects[a] == o && !o.deleted
      ensures o == match old(Live(w, objects, a)) { case Some(x) => x case None => Fresh(w) }
      ensures forall x :: x != a ==>
        (x in objects <==> x in old(objects)) && (x in objects ==> objects[x] == old(objects)[x])
    {
      hide SameView;
      hide Logged;
      hide Counts;
      ghost var h0 := Now();
      var prev := Load(a);
      if prev.Some? && !prev.value.deleted {
        return prev.value;
      }
      o := Fresh(w);
      ghost var h1 := Now();
      if prev == None {
        CreateUndoes(w, objects, a, o);
        Log(Create(a), objects[a := o]);
      } else {
        ResetUndoes(w, objects, a, o);
        Log(Reset(a, prev.value), objects[a := o]);
      }
      ExtendsTrans(w, h0, h1, Now());
    }

    /** A change to one account, made through its object. */
    method Change(a: Addr, o: Object, o': Object, e: Entry)
      requires Valid() && a in objects && objects[a] == o && !o.deleted && !o'.deleted
      requires !e.Create? && !e.Reset? && e.account == a && Alike(w, Restored(o', e), o)
      modifies this
      ensures Valid() && Extends(w, old(Now()), Now()) && objects == old(objects)[a := o']
    {
      hide SameView;
      hide Logged;
      hide Counts;
      hide Alike;
      hide Restored;
      hide Undoes;
      ChangeUndoes(w, objects, a, o, o', e);
      Log(e, objects[a := o']);
    }

    /** SetBalance. */
    method SetBalance(a: Addr, amount: int)
      requires Valid()
      modifies this
      ensures Valid() && Extends(w, old(Now()), Now())
      ensures Only(old(objects), objects, a) && a in objects
      ensures var o := OldOrNew(w, old(objects), a); objects[a] == o.(data := o.data.(balance := amount))
    {
      hide SameView;
      hide Logged;
      hide Counts;
      ghost var h0 := Now();
      var o := GetOrNew(a);
      ghost var h1 := Now();
      var o' := o.(data := o.data.(balance := amount));
      assert Restored(o', BalanceChange(a, o.data.balance)) == o;
      AlikeSelf(w);
      Change(a, o, o', BalanceChange(a, o.data.balance));
      ExtendsTrans(w, h0, h1, Now());
    }

    /** AddBalance; nothing to add still creates a missing account. */
    method AddBalance(a: Addr, amount: int)
      requires Valid()
      modifies this
      ensures Valid() && Extends(w, old(Now()), Now())
      ensures Only(old(objects), objects, a) && a in objects
      ensures var o := OldOrNew(w, old(objects), a);
        objects[a] == o.(data := o.data.(balance := o.data.balance + amount))
    {
      hide SameView;
      hide Logged;
      hide Counts;
      ghost var h0 := Now();
      var o := GetOrNew(a);
      if amount == 0 {
        return;
      }
      ghost var h1 := Now();
      var o' := o.(data := o.data.(balance := o.data.balance + amount));
      assert Restored(o', BalanceChange(a, o.data.balance)) == o;
      AlikeSelf(w);
      Change(a, o, o', BalanceChange(a, o.data.balance));
      ExtendsTrans(w, h0, h1, Now());
    }

    /** SubBalance. */
    method SubBalance(a: Addr, amount: int)
      requires Valid()
      modifies this
      ensures Valid() && Extends(w, old(Now()), Now())
      ensures Only(old(objects), objects, a) && a in objects
      ensures var o := OldOrNew(w, old(objects), a);
        objects[a] == o.(data := o.data.(balance := o.data.balance - amount))
    {
      AddBalance(a, -amount);
    }

    /** SetNonce. */
    method SetNonce(a: Addr, nonce: nat)
      requires Valid()
      modifies this
      ensures Valid() && Extends(w, old(Now()), Now())
      ensures Only(old(objects), objects, a) && a in objects
      ensures var o := OldOrNew(w, old(objects), a); objects[a] == o.(data := o.data.(nonce := nonce))
    {
      hide SameView;
      hide Logged;
      hide Counts;
      ghost var h0 := Now();
      var o := GetOrNew(a);
      ghost var h1 := Now();
      var o' := o.(data := o.data.(nonce := nonce));
      assert Restored(o', NonceChange(a, o.data.nonce)) == o;
      AlikeSelf(w);
      Change(a, o, o', NonceChange(a, o.data.nonce));
      ExtendsTrans(w, h0, h1, Now());
    }

    /** SetCode; the code in place is loaded first, so that it can be put back. */
    method SetCode(a: Addr, code: seq<byte>)
      requires Valid()
      modifies this
      ensures Valid() && Extends(w, old(Now()), Now())
      ensures Only(old(objects), objects, a) && a in objects && !objects[a].deleted
      ensures CodeOf(w, objects[a]) == Some(code)
      ensures objects[a].data == OldOrNew(w, old(objects), a).data.(codeHash := w.codeHash(code))
    {
      hide SameView;
      hide Logged;
      hide Counts;
      ghost var h0 := Now();
      var o := GetOrNew(a);
      ghost var h1 := Now();
      var prev := CodeOf(w, o);
      var loaded := o.(code := prev);
      LoadedCode(w, o, a, code, w.codeHash(code));
      hide Alike;
      Cache(a, loaded);
      ghost var h2 := Now();
      var e := CodeChange(a, prev, o.data.codeHash);
      var o' := loaded.(code := Some(code), data := loaded.data.(codeHash := w.codeHash(code)), dirtyCode := true);
      Change(a, loaded, o', e);
      ExtendsTrans(w, h0, h1, h2);
      ExtendsTrans(w, h0, h2, Now());
    }

    /** SetState; a slot that already has the value is left alone. */
    method SetState(a: Addr, key: Word, value: Word)
      requires Valid()
      modifies this
      ensures Valid() && Extends(w, old(Now()), Now())
      ensures Only(old(objects), objects, a) && a in objects && !objects[a].deleted
      ensures StateAt(w, objects[a], key) == value
      ensures forall k :: k != key ==> StateAt(w, objects[a], k) == StateAt(w, OldOrNew(w, old(objects), a), k)
    {
      hide SameView;
      hide Logged;
      hide Counts;
      hide Alike;
      hide StateAt;
      hide Extends;
      ghost var h0 := Now();
      var o := GetOrNew(a);
      ghost var h1 := Now();
      var loaded, prev := GetState(a, o, key);
      ghost var h2 := Now();
      ExtendsTrans(w, h0, h1, h2);
      AlikeSlots(w, loaded, o);
      if prev == value {
        return;
      }
      var o' := loaded.(dirty := loaded.dirty[key := value]);
      var e := StorageChange(a, key, prev);
      SlotRestored(w, loaded, key, value, e);
      Change(a, loaded, o', e);
      ExtendsTrans(w, h0, h2, Now());
    }

    /** GetState; a slot read from the storage trie is kept. */
    method GetState(a: Addr, o: Object, key: Word) returns (loaded: Object, v: Word)
      requires Valid() && a in objects && objects[a] == o && !o.deleted
      modifies `objects
      ensures Valid() && Extends(w, old(Now()), Now()) && objects == old(objects)[a := loaded]
      ensures Alike(w, loaded, o) && !loaded.deleted && v == StateAt(w, o, key) == StateAt(w, loaded, key)
    {
      hide SameView;
      hide Logged;
      hide Counts;
      v, loaded := StateAt(w, o, key), o;
      if key !in o.dirty && key !in o.pending {
        loaded := o.(origin := o.origin[key := v]);
      }
      LoadedSlot(w, o, key);
      Cache(a, loaded);
    }

    /** revert: entries are undone from the last one down to the snapshot. */
    method Revert(snapshot: nat)
      requires Valid() && snapshot <= |entries|
      modifies this
      ensures Valid() && entries == old(entries)[..snapshot] && past == old(past)[..snapshot]
      ensures SameView(w, objects, At(old(past), old(objects), snapshot))
    {
      hide SameView;
      hide Undoes;
      hide Counts;
      ghost var es, states := entries, past;
      ViewSelf(w, objects);
      var i := |entries|;
      assert entries[..i] == entries && past[..i] == past;
      while i > snapshot
        invariant snapshot <= i <= |es| && |states| == |es| && entries == es
        invariant SameView(w, objects, At(states, old(objects), i)) && Counts(dirties, es[..i])
        invariant Logged(w, es, states, old(objects)) && past == states
      {
        i := i - 1;
        var e := entries[i];
        UndoStep(w, es, states, old(objects), objects, i);
        objects := Reverted(w, objects, e);
        assert es[..i + 1][..i] == es[..i] && es[..i + 1][i] == e;
        UnmarkCounts(dirties, es[..i + 1]);
        dirties := Unmarked(dirties, e);
      }
      LoggedPrefix(w, es, states, old(objects), objects, snapshot);
      entries := entries[..snapshot];
      past := past[..snapshot];
    }
  }

  datatype Op =
    | DoSetBalance(a: Addr, amount: int)
    | DoAddBalance(a: Addr, amount: int)
    | DoSubBalance(a: Addr, amount: int)
    | DoSetNonce(a: Addr, nonce: nat)
    | DoSetCode(a: Addr, code: seq<byte>)
    | DoSetState(a: Addr, key: Word, value: Word)
    | DoGet(a: Addr)
    | DoGetState(a: Addr, key: Word)
    | DoRevert(to: nat)

  /** One operation after a snapshot was taken at the given length of the journal. */
  method Apply(db: StateDB, op: Op, base: nat, ghost h0: History)
    requires db.Valid() && |h0.es| == base && Extends(db.w, h0, db.Now())
    modifies db
    ensures db.Valid() && Extends(db.w, h0, db.Now())
  {
    hide Extends;
    hide Logged;
    hide Counts;
    ghost var h1 := db.Now();
    match op {
      case DoSetBalance(a, x) => db.SetBalance(a, x);
      case DoAddBalance(a, x) => db.AddBalance(a, x);
      case DoSubBalance(a, x) => db.SubBalance(a, x);
      case DoSetNonce(a, n) => db.SetNonce(a, n);
      case DoSetCode(a, c) => db.SetCode(a, c);
      case DoSetState(a, k, v) => db.SetState(a, k, v);
      case DoGet(a) => var _ := db.Load(a);
      case DoGetState(a, k) => Read(db, a, k);
      case DoRevert(to) => RevertLater(db, to, base, h0);
        return;
    }
    ExtendsTrans(db.w, h0, h1, db.Now());
  }

  /** A slot is read, if the account exists. */
  method Read(db: StateDB, a: Addr, key: Word)
    requires db.Valid()
    modifies db
    ensures db.Valid() && Extends(db.w, old(db.Now()), db.Now())
  {
    hide SameView;
    hide Logged;
    hide Counts;
    hide Alike;
    ghost var h0 := db.Now();
    var o := db.Load(a);
    if o.Some? && !o.value.deleted {
      ghost var h1 := db.Now();
      var _, _ := db.GetState(a, o.value, key);
      ExtendsTrans(db.w, h0, h1, db.Now());
    }
  }

  /** Going back to a later snapshot leaves the earlier one within reach. */
  method RevertLater(db: StateDB, to: nat, base: nat, ghost h0: History)
    requires db.Valid() && |h0.es| == base && Extends(db.w, h0, db.Now())
    modifies db
    ensures db.Valid() && Extends(db.w, h0, db.Now())
    ensures base <= to <= |old(db.entries)| ==>
      |db.entries| == to && SameView(db.w, db.objects, At(old(db.past), old(db.objects), to))
  {
    hide SameView;
    hide Logged;
    hide Counts;
    hide Extends;
    if base <= to <= |db.entries| {
      ghost var h1 := db.Now();
      db.Revert(to);
      ExtendsCut(db.w, h0, h1, to, db.objects);
    }
  }

  lemma ExtendsCut(w: Committed, h0: History, h1: History, to: nat, objs: Objects)
    requires Extends(w, h0, h1) && |h0.es| <= to <= |h1.es| && SameView(w, objs, At(h1.past, h1.objs, to))
    ensures Extends(w, h0, History(h1.es[..to], h1.past[..to], objs))
  {
    hide SameView;
    forall i | 0 <= i <= |h0.es|
      ensures SameView(w, At(h1.past[..to], objs, i), At(h0.past, h0.objs, i))
    {
      if i == to {
        ViewTrans(w, objs, At(h1.past, h1.objs, to), At(h0.past, h0.objs, to));
      }
    }
  }

  /**
   * Whatever is done after a snapshot, reading and going back to later snapshots included, going
   * back to it restores all that can be seen, and the journal itself.
   */
  method Rollback(db: StateDB, ops: seq<Op>)
    requires db.Valid()
    modifies db
    ensures db.Valid() && SameView(db.w, db.objects, old(db.objects))
    ensures db.entries == old(db.entries) && db.dirties == old(db.dirties)
  {
    hide SameView;
    hide Logged;
    hide Counts;
    var n := |db.entries|;
    ghost var h0 := db.Now();
    PastLength(db.w, db.entries, db.past, db.objects);
    ViewSelf(db.w, db.objects);
    ExtendsCache(db.w, h0, db.objects);
    for i := 0 to |ops|
      invariant db.Valid() && Extends(db.w, h0, db.Now())
    {
      Apply(db, ops[i], n, h0);
    }
    ghost var h2 := db.Now();
    db.Revert(n);
    ViewTrans(db.w, db.objects, At(h2.past, h2.objs, n), At(h0.past, h0.objs, n));
    assert db.entries == h0.es;
    CountsUnique(db.dirties, old(db.dirties), db.entries);
  }

  /** The object an operation on the account starts from. */
  function OldOrNew(w: Committed, objs: Objects, a: Addr): (o: Object) {
    match Live(w, objs, a)
    case Some(o) => o
    case None => Fresh(w)
  }

  /** No other account's cached object is touched. */
  ghost predicate Only(objs: Objects, objs': Objects, a: Addr) {
    forall x :: x != a ==> (x in objs' <==> x in objs) && (x in objs' ==> objs'[x] == objs[x])
  }

  lemma LoadedCode(w: Committed, o: Object, a: Addr, code: seq<byte>, hash: Word)
    ensures
      var prev := CodeOf(w, o);
      var loaded := o.(code := prev);
      var o' := loaded.(code := Some(code), data := loaded.data.(codeHash := hash), dirtyCode := true);
      Alike(w, loaded, o) && Alike(w, Restored(o', CodeChange(a, prev, o.data.codeHash)), loaded)
  {}

  lemma LoadedSlot(w: Committed, o: Object, key: Word)
    ensures key !in o.dirty && key !in o.pending ==> Alike(w, o.(origin := o.origin[key := StateAt(w, o, key)]), o)
    ensures Alike(w, o, o)
  {}

  lemma SlotRestored(w: Committed, o: Object, key: Word, value: Word, e: Entry)
    requires e.StorageChange? && e.key == key && e.value == StateAt(w, o, key)
    ensures var o' := o.(dirty := o.dirty[key := value]);
      && Alike(w, Restored(o', e), o) && StateAt(w, o', key) == value
      && forall k :: k != key ==> StateAt(w, o', k) == StateAt(w, o, k)
  {}

  lemma AlikeSlots(w: Committed, a: Object, b: Object)
    requires Alike(w, a, b)
    ensures forall k :: StateAt(w, a, k) == StateAt(w, b, k)
  {}

  lemma UndoStep(w: Committed, es: seq<Entry>, past: seq<Objects>, last: Objects, objs: Objects, i: nat)
    requires Logged(w, es, past, last) && i < |es| && SameView(w, objs, At(past, last, i + 1))
    ensures Revertible(w, objs, es[i]) && SameView(w, Reverted(w, objs, es[i]), At(past, last, i))
  {
    hide SameView;
    hide Revertible;
    RevertedSame(w, objs, At(past, last, i + 1), es[i]);
    ViewTrans(w, Reverted(w, objs, es[i]), Reverted(w, At(past, last, i + 1), es[i]), past[i]);
  }

  lemma LoggedPrefix(w: Committed, es: seq<Entry>, past: seq<Objects>, last: Objects, objs: Objects, n: nat)
    requires Logged(w, es, past, last) && n <= |es| && SameView(w, objs, At(past, last, n))
    ensures Logged(w, es[..n], past[..n], objs)
  {
    hide Undoes;
    hide SameView;
    forall i | 0 <= i < n
      ensures Undoes(w, es[i], past[i], At(past[..n], objs, i + 1))
    {
      if i == n - 1 {
        ViewSelf(w, past[i]);
        UndoesSame(w, es[i], past[i], past[i], At(past, last, n), objs);
      }
    }
  }

  /** newObject for an account that does not exist. */
  function Fresh(w: Committed): (o: Object) {
    NewObject(Account(0, 0, w.emptyRoot, w.emptyCodeHash))
  }

  lemma PastLength(w: Committed, es: seq<Entry>, past: seq<Objects>, objs: Objects)
    requires Logged(w, es, past, objs)
    ensures |past| == |es|
  {}
}
