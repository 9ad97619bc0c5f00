/**
  The `GET /api/leads` handler (src/index.js, lines 88-98): every stored lead,
  newest first by `createdAt`, or a 500 with a fixed message when the store fails.
  The ordering itself is the database's; `NewestFirst` is a reference
  definition of one order it may return.
*/
module Listing {
  import opened Wrappers
  import opened Leads
  import opened Submission

  /** Ordered by `createdAt`, descending. */
  predicate NewestFirstOrdered(s: seq<Lead>) {
    forall i, j :: 0 <= i < j < |s| ==> s[i].createdAt >= s[j].createdAt
  }

  /** Ordered by `createdAt`, ascending: the order in which a monotonic clock stamps insertions. */
  predicate Chronological(s: seq<Lead>) {
    forall i, j :: 0 <= i < j < |s| ==> s[i].createdAt <= s[j].createdAt
  }

  /** Places `x` after every lead of `t` that is at least as recent. */
  function Insert(x: Lead, t: seq<Lead>): (r: seq<Lead>)
    requires NewestFirstOrdered(t)
    ensures NewestFirstOrdered(r)
    ensures multiset(r) == multiset(t) + multiset{x}
    ensures t == [] ==> r == [x]
    ensures t != [] ==> r[0] == x || r[0] == t[0]
    decreases |t|
  {
    if t == [] then [x]
    else if t[0].createdAt >= x.createdAt then
      var rest := Insert(x, t[1..]);
      assert t == [t[0]] + t[1..];
      PrependOrdered(t[0], rest);
      [t[0]] + rest
    else
      PrependOrdered(x, t);
      [x] + t
  }

  /** A lead at least as recent as the head of an ordered listing can go in front of it. */
  lemma PrependOrdered(h: Lead, s: seq<Lead>)
    requires NewestFirstOrdered(s)
    requires s != [] ==> h.createdAt >= s[0].createdAt
    ensures NewestFirstOrdered([h] + s)
  {
    var r := [h] + s;
    forall i, j | 0 <= i < j < |r| ensures r[i].createdAt >= r[j].createdAt {
      if i == 0 {
        assert r[j] == s[j - 1];
        if j > 1 { assert s[0].createdAt >= s[j - 1].createdAt; }
      } else {
        assert r[i] == s[i - 1] && r[j] == s[j - 1];
      }
    }
  }

  /** The leads of `s` sorted newest first; among equal timestamps the later insertion comes first. */
  function NewestFirst(s: seq<Lead>): (r: seq<Lead>)
    ensures NewestFirstOrdered(r)
    ensures multiset(r) == multiset(s)
  {
    if s == [] then []
    else
      assert s == [s[0]] + s[1..];
      Insert(s[0], NewestFirst(s[1..]))
  }

  function Reverse(s: seq<Lead>): (r: seq<Lead>)
    ensures |r| == |s|
    ensures forall k :: 0 <= k < |s| ==> r[k] == s[|s| - 1 - k]
  {
    if s == [] then [] else Reverse(s[1..]) + [s[0]]
  }

  /** The listing response for the given store contents; `fails` says whether the store's query rejects. */
  function ListLeads(store: seq<Lead>, fails: bool): (r: Response)
    ensures fails ==> r == Response(500, ErrorBody(FETCH_FAILED_ERROR))
    ensures !fails ==> r.status == 200 && r.body.LeadsBody? && r.body.Success()
    ensures !fails ==> NewestFirstOrdered(r.body.leads) && multiset(r.body.leads) == multiset(store)
  {
    if fails then Response(500, ErrorBody(FETCH_FAILED_ERROR))
    else Response(200, LeadsBody(NewestFirst(store)))
  }

  /** A lead no more recent than all of `t` goes to the end. */
  lemma {:induction false} InsertOldest(x: Lead, t: seq<Lead>)
    requires NewestFirstOrdered(t)
    requires forall k :: 0 <= k < |t| ==> t[k].createdAt >= x.createdAt
    ensures Insert(x, t) == t + [x]
    decreases |t|
  {
    if t != [] {
      InsertOldest(x, t[1..]);
      assert [t[0]] + (t[1..] + [x]) == t + [x];
    }
  }

  /**
    When the store holds its leads in insertion order with non-decreasing
    timestamps, the listing is exactly the insertion order reversed:
    the latest submission first.
  */
  lemma {:induction false} NewestFirstOfChronological(s: seq<Lead>)
    requires Chronological(s)
    ensures NewestFirst(s) == Reverse(s)
  {
    if s != [] {
      var tail := s[1..];
      ChronologicalTail(s);
      NewestFirstOfChronological(tail);
      var rt := Reverse(tail);
      OldestBelowReversedTail(s);
      InsertOldest(s[0], rt);
    }
  }

  lemma ChronologicalTail(s: seq<Lead>)
    requires s != [] && Chronological(s)
    ensures Chronological(s[1..])
  {
    var tail := s[1..];
    forall i, j | 0 <= i < j < |tail| ensures tail[i].createdAt <= tail[j].createdAt {
      assert tail[i] == s[i + 1] && tail[j] == s[j + 1];
    }
  }

  lemma OldestBelowReversedTail(s: seq<Lead>)
    requires s != [] && Chronological(s)
    ensures var rt := Reverse(s[1..]);
            forall k :: 0 <= k < |rt| ==> rt[k].createdAt >= s[0].createdAt
  {
    var rt := Reverse(s[1..]);
    forall k | 0 <= k < |rt| ensures rt[k].createdAt >= s[0].createdAt {
      assert rt[k] == s[1..][|s| - 2 - k] == s[|s| - 1 - k];
    }
  }

  /** A submission stamped no earlier than every stored lead keeps the store chronological. */
  lemma SubmitKeepsChronological(p: Payload, st: State, createFails: bool, notifyFails: bool,
                                 id: nat, createdAt: int)
    requires Chronological(st.store)
    requires forall k :: 0 <= k < |st.store| ==> st.store[k].createdAt <= createdAt
    ensures Chronological(HandleSubmit(p, st, createFails, notifyFails, id, createdAt).state.store)
  {
  }

  /**
    Two leads with strictly increasing timestamps admit exactly one listing
    ordered newest first: the later one, then the earlier one.
  */
  lemma ListingOfTwoIsFixed(a: Lead, b: Lead, r: seq<Lead>)
    requires a.createdAt < b.createdAt
    requires NewestFirstOrdered(r) && multiset(r) == multiset([a, b])
    ensures r == [b, a]
  {
    assert |r| == |multiset(r)| == 2;
    assert r[0] in multiset(r) && r[1] in multiset(r);
    assert r == [r[0], r[1]];
    if r[0] == a {
      assert false;
    }
    if r[1] == b {
      assert false;
    }
  }

  /**
    Two valid submissions into an empty store, the second stamped later, then a
    listing: every listing the endpoint may return, and so the one it does
    return, holds both leads with the second first.
  */
  lemma TwoSubmissionsListedNewestFirst(p1: Payload, p2: Payload, t1: int, t2: int)
    requires RequiredPresent(p1) && ValidSource(p1.source.value)
    requires RequiredPresent(p2) && ValidSource(p2.source.value)
    requires t1 < t2
    ensures var o1 := HandleSubmit(p1, State([], [], []), false, false, 1, t1);
            var o2 := HandleSubmit(p2, o1.state, false, false, 2, t2);
            var store := o2.state.store;
            |store| == 2
            && (forall r :: NewestFirstOrdered(r) && multiset(r) == multiset(store) ==> r == [store[1], store[0]])
            && ListLeads(store, false) == Response(200, LeadsBody([store[1], store[0]]))
    ensures var o1 := HandleSubmit(p1, State([], [], []), false, false, 1, t1);
            var o2 := HandleSubmit(p2, o1.state, false, false, 2, t2);
            var store := o2.state.store;
            store[1].id == 2 && store[1].createdAt == t2 && Some(store[1].name) == p2.name
            && store[0].id == 1 && store[0].createdAt == t1 && Some(store[0].name) == p1.name
  {
    var o1 := HandleSubmit(p1, State([], [], []), false, false, 1, t1);
    var o2 := HandleSubmit(p2, o1.state, false, false, 2, t2);
    var l1 := Persist(Validate(p1).value, 1, t1);
    var l2 := Persist(Validate(p2).value, 2, t2);
    assert o1.state.store == [l1];
    assert o2.state.store == [l1, l2];
    forall r | NewestFirstOrdered(r) && multiset(r) == multiset([l1, l2])
      ensures r == [l2, l1]
    {
      ListingOfTwoIsFixed(l1, l2, r);
    }
    var listed := ListLeads([l1, l2], false);
    assert NewestFirstOrdered(listed.body.leads) && multiset(listed.body.leads) == multiset([l1, l2]);
  }
}
