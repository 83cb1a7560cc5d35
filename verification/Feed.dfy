/**
 * One-to-many event delivery (event/feed.go): Send offers the value to all subscribed channels and
 * keeps those not yet served in a prefix of its case array, while subscriptions may be taken out.
 *
 * Which channel becomes ready, which is unsubscribed in between, and when others come to or leave
 * the inbox meanwhile, is arbitrary. The case at index 0, which receives unsubscriptions, is left
 * implicit: position i here is index i + 1 there.
 */
module Feed {

  // ---- lists of cases ----

  lemma SplitAt<C>(s: seq<C>, i: nat)
    requires i < |s|
    ensures multiset(s) == multiset(s[..i]) + multiset{s[i]} + multiset(s[i + 1..])
  {
    assert s == s[..i] + [s[i]] + s[i + 1..];
  }

  lemma Around<C>(a: seq<C>, x: C, b: seq<C>)
    ensures multiset(a + ([x] + b)) == multiset(a) + multiset{x} + multiset(b)
  {}

  function Swapped<C>(s: seq<C>, i: nat, m: nat): (t: seq<C>)
    requires i < m <= |s|
    ensures |t| == |s|
  {
    s[i := s[m - 1]][m - 1 := s[i]]
  }

  /** Swapping an element of a prefix to its end takes it out of the prefix and leaves the whole as it is. */
  lemma SwapOut<C>(s: seq<C>, i: nat, m: nat)
    requires i < m <= |s|
    ensures multiset(Swapped(s, i, m)[..m - 1]) == multiset(s[..m]) - multiset{s[i]}
    ensures multiset(Swapped(s, i, m)) == multiset(s)
  {
    hide Swapped;
    SwapPrefix(s, i, m);
    SwapParts(s, i, m);
    assert s[..m][i] == s[i];
    Whole(s[..m], Swapped(s, i, m)[..m - 1], s[i], s[m..]);
  }

  lemma SwapPrefix<C>(s: seq<C>, i: nat, m: nat)
    requires i < m <= |s|
    ensures multiset(Swapped(s, i, m)[..m - 1]) == multiset(s[..m]) - multiset{s[i]}
  {
    hide Swapped;
    if i < m - 1 {
      SwapInside(s[..m], i);
      SwapCut(s, i, m);
    } else {
      LastOut(s, m);
    }
  }

  lemma SwapCut<C>(s: seq<C>, i: nat, m: nat)
    requires i < m - 1 < |s|
    ensures Swapped(s, i, m)[..m - 1] == Swapped(s[..m], i, m)[..m - 1]
  {}

  lemma LastOut<C>(s: seq<C>, m: nat)
    requires 0 < m <= |s|
    ensures multiset(Swapped(s, m - 1, m)[..m - 1]) == multiset(s[..m]) - multiset{s[m - 1]}
  {
    assert Swapped(s, m - 1, m) == s;
    assert s[..m] == s[..m - 1] + [s[m - 1]];
  }

  lemma SwapParts<C>(s: seq<C>, i: nat, m: nat)
    requires i < m <= |s|
    ensures s == s[..m] + s[m..] && Swapped(s, i, m) == Swapped(s, i, m)[..m - 1] + ([s[i]] + s[m..])
  {}

  lemma Whole<C>(p: seq<C>, q: seq<C>, x: C, d: seq<C>)
    requires x in p && multiset(q) == multiset(p) - multiset{x}
    ensures multiset(q + ([x] + d)) == multiset(p + d)
  {
    Around(q, x, d);
    assert multiset(p)[x] > 0;
  }

  lemma SwapInside<C>(s: seq<C>, i: nat)
    requires i < |s| - 1
    ensures multiset(Swapped(s, i, |s|)[..|s| - 1]) == multiset(s) - multiset{s[i]}
  {
    var n := |s| - 1;
    var (a, x, b, y) := (s[..i], s[i], s[i + 1..n], s[n]);
    Around(a, x, b + [y]);
    Around(a, y, b);
    assert s == a + ([x] + (b + [y]));
    assert Swapped(s, i, |s|)[..n] == a + ([y] + b);
    assert multiset(b + [y]) == multiset(b) + multiset{y};
  }

  function Deleted<C>(s: seq<C>, i: nat): (t: seq<C>)
    requires i < |s|
    ensures |t| == |s| - 1
  {
    s[..i] + s[i + 1..]
  }

  /** Deleting an element shortens a prefix that contained it, and leaves a prefix before it alone. */
  lemma DeleteOut<C>(s: seq<C>, i: nat, m: nat)
    requires i < |s| && m <= |s|
    ensures multiset(Deleted(s, i)) == multiset(s) - multiset{s[i]}
    ensures i < m ==> multiset(Deleted(s, i)[..m - 1]) == multiset(s[..m]) - multiset{s[i]}
    ensures i >= m ==> Deleted(s, i)[..m] == s[..m]
  {
    SplitAt(s, i);
    if i < m {
      SplitAt(s[..m], i);
      assert Deleted(s, i)[..m - 1] == s[..m][..i] + s[..m][i + 1..];
    }
  }

  /**
   * Bookkeeping of one Send: who was there, who was served, who was taken out, and who of those before
   * being served.
   */
  datatype Tally<C(==)> = Tally(all: multiset<C>, served: seq<C>, removed: multiset<C>, dropped: multiset<C>)

  /** The prefix holds exactly those not served and not taken out; the whole list those not taken out. */
  ghost predicate Tallied<C>(t: Tally<C>, s: seq<C>, m: nat) {
    && m <= |s| && t.dropped <= t.removed
    && t.all == multiset(t.served) + t.dropped + multiset(s[..m])
    && t.all == t.removed + multiset(s)
  }

  lemma TallyStart<C>(s: seq<C>)
    ensures Tallied(Tally(multiset(s), [], multiset{}, multiset{}), s, |s|)
  {
    assert s[..|s|] == s;
  }

  lemma TallyEnd<C>(t: Tally<C>, s: seq<C>)
    requires Tallied(t, s, 0)
    ensures t.all == multiset(t.served) + t.dropped && t.dropped <= t.removed && t.all == t.removed + multiset(s)
  {
    assert s[..0] == [];
  }

  lemma ServeOne<C>(t: Tally<C>, s: seq<C>, m: nat, i: nat)
    requires Tallied(t, s, m) && i < m
    ensures Tallied(t.(served := t.served + [s[i]]), Swapped(s, i, m), m - 1)
  {
    SwapOut(s, i, m);
    hide Swapped;
    assert s[..m][i] == s[i];
    assert multiset(s[..m])[s[i]] > 0;
  }

  lemma RemoveOne<C>(t: Tally<C>, s: seq<C>, m: nat, i: nat)
    requires Tallied(t, s, m) && i < |s|
    ensures i < m ==> Tallied(t.(removed := t.removed + multiset{s[i]}, dropped := t.dropped + multiset{s[i]}),
      Deleted(s, i), m - 1)
    ensures i >= m ==> Tallied(t.(removed := t.removed + multiset{s[i]}), Deleted(s, i), m)
  {
    DeleteOut(s, i, m);
    hide Deleted;
    assert multiset(s)[s[i]] > 0;
    TakeFrom(t.removed, multiset(s), s[i]);
    if i < m {
      assert s[..m][i] == s[i];
      assert multiset(s[..m])[s[i]] > 0;
      TakeFrom(multiset(t.served) + t.dropped, multiset(s[..m]), s[i]);
    }
  }

  lemma TakeFrom<C>(a: multiset<C>, b: multiset<C>, x: C)
    requires b[x] > 0
    ensures a + b == a + multiset{x} + (b - multiset{x})
  {}

  lemma OneOut<C>(s: seq<C>, i: nat, rest: multiset<C>)
    requires i < |s|
    ensures rest + multiset(Deleted(s, i)) == rest + multiset(s) - multiset{s[i]}
    ensures multiset(Deleted(s, i)) + rest == multiset(s) + rest - multiset{s[i]}
  {
    DeleteOut(s, i, 0);
    assert multiset(s)[s[i]] > 0;
  }

  // ---- the inbox ----

  lemma {:induction false} FirstUnique<C>(s: seq<C>, ch: C, i: nat)
    requires i < |s| && s[i] == ch && ch !in s[..i]
    ensures FirstOf(s, ch) == i
  {
    if i > 0 {
      assert s[0] == s[..i][0] && s[..i][1..] == s[1..][..i - 1];
      FirstUnique(s[1..], ch, i - 1);
    }
  }

  lemma InboxStep<C>(env: seq<Inbound<C>>, n: nat)
    requires n < |env|
    ensures InboxAfter([], env[..n + 1]) == Inboxed(InboxAfter([], env[..n]), env[n])
  {
    assert env[..n + 1][..n] == env[..n];
  }

  lemma JoinStep<C>(s: seq<C>, ch: C)
    ensures Inboxed(s, Join(ch)) == s + [ch]
  {}

  /** What other goroutines do to the inbox while a Send is under way. */
  datatype Inbound<C> = Join(ch: C) | Leave(ch: C)

  /** The first place of a channel, or the length. */
  function FirstOf<C(==)>(s: seq<C>, ch: C): (i: nat)
    ensures i <= |s| && ch !in s[..i] && (i < |s| ==> s[i] == ch) && (i == |s| <==> ch !in s)
  {
    if s == [] then 0 else if s[0] == ch then 0 else 1 + FirstOf(s[1..], ch)
  }

  function Inboxed<C(==)>(s: seq<C>, e: Inbound<C>): (t: seq<C>) {
    match e
    case Join(ch) => s + [ch]
    case Leave(ch) => if ch in s then Deleted(s, FirstOf(s, ch)) else s
  }

  /** The inbox after all of them, in order. */
  function InboxAfter<C(==)>(s: seq<C>, es: seq<Inbound<C>>): (t: seq<C>) {
    if es == [] then s else Inboxed(InboxAfter(s, es[..|es| - 1]), es[|es| - 1])
  }

  class Feed<C(==)> {
    var sendCases: array<C>
    var len: nat
    var inbox: seq<C>

    ghost predicate Valid()
      reads this
    {
      len <= sendCases.Length
    }

    constructor ()
      ensures Valid() && len == 0 && inbox == [] && fresh(sendCases)
    {
      sendCases := new C[0];
      len := 0;
      inbox := [];
    }

    /** Subscribe: the channel waits in the inbox for the next Send. */
    method Subscribe(ch: C)
      requires Valid()
      modifies `inbox
      ensures Valid() && inbox == old(inbox) + [ch]
    {
      inbox := inbox + [ch];
    }

    /** find: the first case with the channel. */
    method Find(ch: C) returns (index: int)
      requires Valid()
      ensures index == -1 ==> ch !in sendCases[..len]
      ensures index != -1 ==> 0 <= index < len && sendCases[index] == ch && ch !in sendCases[..index]
    {
      for i := 0 to len
        invariant ch !in sendCases[..i]
      {
        if sendCases[i] == ch {
          return i;
        }
      }
      return -1;
    }

    /** delete: the cases after the index move up by one. */
    method Delete(index: nat)
      requires Valid() && index < len
      modifies `len, sendCases
      ensures Valid() && len == old(len) - 1 && sendCases[..len] == Deleted(old(sendCases[..len]), index)
    {
      ghost var s := sendCases[..len];
      var i := index;
      while i < len - 1
        invariant len == old(len) && sendCases == old(sendCases) && index <= i <= len - 1
        invariant forall k :: 0 <= k < i ==> sendCases[k] == s[if k < index then k else k + 1]
        invariant forall k :: i < k < len ==> sendCases[k] == s[k]
      {
        sendCases[i] := sendCases[i + 1];
        i := i + 1;
      }
      len := len - 1;
    }

    /** deactivate: the case moves behind the active ones. */
    method Deactivate(index: nat, active: nat)
      requires Valid() && index < active <= len
      modifies sendCases
      ensures sendCases[..len] == Swapped(old(sendCases[..len]), index, active)
    {
      sendCases[index], sendCases[active - 1] := sendCases[active - 1], sendCases[index];
    }

    /** The first half of remove: a channel that is still in the inbox leaves it. */
    method LeaveInbox(ch: C) returns (found: bool)
      requires Valid()
      modifies `inbox
      ensures Valid() && (found <==> ch in old(inbox)) && inbox == Inboxed(old(inbox), Leave(ch))
    {
      hide Deleted;
      for i := 0 to |inbox|
        invariant inbox == old(inbox) && ch !in inbox[..i]
      {
        if inbox[i] == ch {
          FirstUnique(inbox, ch, i);
          inbox := Deleted(inbox, i);
          return true;
        }
      }
      assert inbox[..|inbox|] == inbox;
      return false;
    }

    /** Unsubscribing when no Send holds the lock: the channel leaves the inbox, or else the case list. */
    method Remove(ch: C)
      requires Valid() && (ch in inbox || ch in sendCases[..len])
      modifies this, sendCases
      ensures Valid() && sendCases == old(sendCases)
      ensures multiset(inbox) + multiset(sendCases[..len]) ==
        old(multiset(inbox) + multiset(sendCases[..len])) - multiset{ch}
    {
      hide Deleted;
      var found := LeaveInbox(ch);
      if found {
        OneOut(old(inbox), FirstOf(old(inbox), ch), multiset(sendCases[..len]));
        return;
      }
      var index := Find(ch);
      assert sendCases[..len][index] == ch;
      OneOut(sendCases[..len], index, multiset(inbox));
      Delete(index);
    }

    /** Others get the inbox's lock for a while. */
    method Others(env: seq<Inbound<C>>, done0: nat) returns (done: nat)
      requires Valid() && done0 <= |env| && inbox == InboxAfter([], env[..done0])
      modifies `inbox
      ensures Valid() && done0 <= done <= |env| && inbox == InboxAfter([], env[..done])
    {
      hide Inboxed;
      done := done0;
      while done < |env|
        invariant Valid() && done0 <= done <= |env| && inbox == InboxAfter([], env[..done])
      {
        if * {
          return;
        }
        InboxStep(env, done);
        match env[done] {
          case Join(ch) =>
            JoinStep(inbox, ch);
            Subscribe(ch);
          case Leave(ch) =>
            var _ := LeaveInbox(ch);
        }
        done := done + 1;
      }
    }

    /** The inbox joins the cases once Send has the lock. */
    method TakeInbox()
      requires Valid()
      modifies this
      ensures Valid() && fresh(sendCases) && inbox == [] && sendCases[..len] == old(sendCases[..len]) + old(inbox)
    {
      var all := sendCases[..len] + inbox;
      var bigger := new C[|all|](i requires 0 <= i < |all| => all[i]);
      sendCases, len, inbox := bigger, |all|, [];
      assert sendCases[..len] == all;
    }

    /**
     * Send: every case is tried, and while some are left one of them becomes ready or a subscription
     * is taken out. The environment decides which, and who comes to the inbox meanwhile: they are
     * not among those served, but wait for the next Send.
     */
    method Send(env: seq<Inbound<C>>) returns (nsent: nat, done: nat, ghost t: Tally<C>)
      requires Valid()
      modifies this, sendCases
      ensures Valid() && fresh(sendCases) && done <= |env| && inbox == InboxAfter([], env[..done])
      ensures t.all == old(multiset(sendCases[..len] + inbox))
      ensures nsent == |t.served| && t.all == multiset(t.served) + t.dropped && t.dropped <= t.removed
      ensures t.all == t.removed + multiset(sendCases[..len])
    {
      hide Tallied;
      hide Swapped;
      hide Deleted;
      TakeInbox();
      nsent := 0;
      t := Tally(multiset(sendCases[..len]), [], multiset{}, multiset{});
      TallyStart(sendCases[..len]);
      var active: nat := len;
      done := 0;
      assert env[..0] == [];
      while true
        invariant Valid() && active <= len && fresh(sendCases) && nsent == |t.served|
        invariant done <= |env| && inbox == InboxAfter([], env[..done])
        invariant t.all == old(multiset(sendCases[..len] + inbox)) && Tallied(t, sendCases[..len], active)
        decreases active + len
      {
        done := Others(env, done);
        active, nsent, done, t := TryAll(active, nsent, env, done, t);
        if active == 0 {
          break;
        }
        done := Others(env, done);
        if * {
          var chosen :| 0 <= chosen < active;
          ServeOne(t, sendCases[..len], active, chosen);
          t := t.(served := t.served + [sendCases[chosen]]);
          Deactivate(chosen, active);
          active, nsent := active - 1, nsent + 1;
        } else {
          var gone :| 0 <= gone < len;
          active, t := TakeOut(sendCases[gone], active, t);
        }
      }
      TallyEnd(t, sendCases[..len]);
    }

    /** The fast path: cases that are ready at once are served. */
    method TryAll(active0: nat, nsent0: nat, env: seq<Inbound<C>>, done0: nat, ghost t0: Tally<C>)
      returns (active: nat, nsent: nat, done: nat, ghost t: Tally<C>)
      requires Valid() && active0 <= len && nsent0 == |t0.served| && Tallied(t0, sendCases[..len], active0)
      requires done0 <= |env| && inbox == InboxAfter([], env[..done0])
      modifies `inbox, sendCases
      ensures Valid() && done0 <= done <= |env| && inbox == InboxAfter([], env[..done])
      ensures active <= active0 && nsent == |t.served| && t.all == t0.all && Tallied(t, sendCases[..len], active)
    {
      hide Tallied;
      hide Swapped;
      active, nsent, done, t := active0, nsent0, done0, t0;
      var i := 0;
      while i < active
        invariant Valid() && done0 <= done <= |env| && inbox == InboxAfter([], env[..done])
        invariant 0 <= i <= active <= active0 && nsent == |t.served| && t.all == t0.all
        invariant Tallied(t, sendCases[..len], active)
        decreases active - i
      {
        done := Others(env, done);
        if * {
          ServeOne(t, sendCases[..len], active, i);
          t := t.(served := t.served + [sendCases[i]]);
          Deactivate(i, active);
          active, nsent := active - 1, nsent + 1;
        } else {
          i := i + 1;
        }
      }
    }

    /** An unsubscription that arrives during Send. */
    method TakeOut(ch: C, active0: nat, ghost t0: Tally<C>) returns (active: nat, ghost t: Tally<C>)
      requires Valid() && active0 <= len && ch in sendCases[..len] && Tallied(t0, sendCases[..len], active0)
      modifies `len, sendCases
      ensures Valid() && len == old(len) - 1 && active <= active0 && active <= len && t.all == t0.all
      ensures t.served == t0.served
      ensures t.removed == t0.removed + multiset{ch} && Tallied(t, sendCases[..len], active)
    {
      hide Tallied;
      hide Deleted;
      var index := Find(ch);
      assert ch == sendCases[..len][index];
      RemoveOne(t0, sendCases[..len], active0, index);
      t := t0.(removed := t0.removed + multiset{ch});
      Delete(index);
      if index < active0 {
        t := t.(dropped := t0.dropped + multiset{ch});
        return active0 - 1, t;
      }
      return active0, t;
    }
  }

  /** Whoever came to the inbox during one Send is there for the next, with those not taken out. */
  method SendAgain<C(==)>(f: Feed<C>, env: seq<Inbound<C>>, env': seq<Inbound<C>>)
    returns (ghost t: Tally<C>, ghost t': Tally<C>, done: nat)
    requires f.Valid()
    modifies f, f.sendCases
    ensures f.Valid() && done <= |env| && t.removed <= t.all
    ensures t'.all == t.all - t.removed + multiset(InboxAfter([], env[..done]))
    ensures t'.all == multiset(t'.served) + t'.dropped
  {
    var n, m, done';
    n, done, t := f.Send(env);
    assert multiset(f.sendCases[..f.len] + f.inbox) == multiset(f.sendCases[..f.len]) + multiset(f.inbox);
    m, done', t' := f.Send(env');
  }

  /** Channels subscribed once each are served at most once, and exactly once if they are not taken out. */
  lemma ServedOnce<C>(t: Tally<C>, c: C)
    requires t.all == multiset(t.served) + t.dropped && t.dropped <= t.removed && t.all[c] == 1
    ensures multiset(t.served)[c] <= 1 && (t.removed[c] == 0 ==> multiset(t.served)[c] == 1)
  {
    assert t.dropped[c] <= t.removed[c];
  }
}
