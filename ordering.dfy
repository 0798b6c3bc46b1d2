/** The order the question list is kept in: descending weight. `Vec::sort_by`
    is a stable sort, so the order is fully determined: by weight first, and
    among equal weights by the order the questions had before sorting. */
module Ordering {
  import opened Priorities

  predicate SortedByPriority(qs: seq<Question>) {
    forall i, j :: 0 <= i < j < |qs| ==> qs[i].priority >= qs[j].priority
  }

  /** The questions of `qs` that have weight `p`, in their order in `qs`. */
  function WithPriority(qs: seq<Question>, p: nat): seq<Question> {
    if qs == [] then []
    else (if qs[0].priority == p then [qs[0]] else []) + WithPriority(qs[1..], p)
  }

  /** Puts `q` in front of the first question that does not outweigh it. */
  function InsertByPriority(q: Question, qs: seq<Question>): (r: seq<Question>)
    ensures multiset(r) == multiset(qs) + multiset{q}
    ensures |r| == |qs| + 1 && (r[0] == q || (qs != [] && r[0] == qs[0]))
  {
    if qs == [] || qs[0].priority <= q.priority then [q] + qs
    else
      assert qs == [qs[0]] + qs[1..];
      [qs[0]] + InsertByPriority(q, qs[1..])
  }

  lemma {:induction false} InsertByPriorityKeepsSorted(q: Question, qs: seq<Question>)
    requires SortedByPriority(qs)
    ensures SortedByPriority(InsertByPriority(q, qs))
  {
    if qs == [] || qs[0].priority <= q.priority {
      SortedCons(q, qs);
    } else {
      InsertByPriorityKeepsSorted(q, qs[1..]);
      SortedCons(qs[0], InsertByPriority(q, qs[1..]));
    }
  }

  lemma SortedCons(x: Question, qs: seq<Question>)
    requires SortedByPriority(qs)
    requires qs == [] || qs[0].priority <= x.priority
    ensures SortedByPriority([x] + qs)
  {
  }

  /** The result of the stable sort by descending weight (`sort_questions`). */
  function SortByPriority(qs: seq<Question>): (r: seq<Question>)
    ensures SortedByPriority(r)
    ensures multiset(r) == multiset(qs)
  {
    if qs == [] then []
    else
      assert qs == [qs[0]] + qs[1..];
      InsertByPriorityKeepsSorted(qs[0], SortByPriority(qs[1..]));
      InsertByPriority(qs[0], SortByPriority(qs[1..]))
  }

  lemma {:induction false} WithPriorityConcat(a: seq<Question>, b: seq<Question>, p: nat)
    ensures WithPriority(a + b, p) == WithPriority(a, p) + WithPriority(b, p)
  {
    if a == [] {
      assert a + b == b;
    } else {
      var head := if a[0].priority == p then [a[0]] else [];
      assert (a + b)[0] == a[0] && (a + b)[1..] == a[1..] + b;
      assert WithPriority(a + b, p) == head + WithPriority(a[1..] + b, p);
      WithPriorityConcat(a[1..], b, p);
      assert head + (WithPriority(a[1..], p) + WithPriority(b, p))
             == (head + WithPriority(a[1..], p)) + WithPriority(b, p);
    }
  }

  /** Insertion keeps every other question where it was among its equals. */
  lemma {:induction false} InsertByPriorityStable(q: Question, qs: seq<Question>, p: nat)
    ensures WithPriority(InsertByPriority(q, qs), p)
            == (if q.priority == p then [q] else []) + WithPriority(qs, p)
  {
    if qs == [] || qs[0].priority <= q.priority {
      assert ([q] + qs)[1..] == qs;
    } else {
      var rest := InsertByPriority(q, qs[1..]);
      assert ([qs[0]] + rest)[1..] == rest;
      InsertByPriorityStable(q, qs[1..], p);
    }
  }

  /** The sort is stable: it never reorders questions of equal weight. */
  lemma {:induction false} SortByPriorityStable(qs: seq<Question>, p: nat)
    ensures WithPriority(SortByPriority(qs), p) == WithPriority(qs, p)
  {
    if qs != [] {
      InsertByPriorityStable(qs[0], SortByPriority(qs[1..]), p);
      SortByPriorityStable(qs[1..], p);
    }
  }

  /** In a sorted list the head outweighs every question of the list. */
  lemma {:induction false} HeadOutweighs(qs: seq<Question>, p: nat)
    requires SortedByPriority(qs)
    requires WithPriority(qs, p) != []
    ensures qs != [] && qs[0].priority >= p
  {
    if qs[0].priority != p {
      HeadOutweighs(qs[1..], p);
    }
  }

  /** Two sorted lists holding the same questions of each weight in the same
      order are equal: the stable sort has exactly one possible result. */
  lemma {:induction false} StableOrderUnique(s: seq<Question>, t: seq<Question>)
    requires SortedByPriority(s) && SortedByPriority(t)
    requires forall p: nat :: WithPriority(s, p) == WithPriority(t, p)
    ensures s == t
    decreases |s|
  {
    if s == [] || t == [] {
      HeadKeepsOwnPriority(s);
      HeadKeepsOwnPriority(t);
    } else {
      var a, b := s[0].priority, t[0].priority;
      SameHeads(s, t);
      forall p: nat
        ensures WithPriority(s[1..], p) == WithPriority(t[1..], p)
      {
        SameTails(s, t, p);
      }
      StableOrderUnique(s[1..], t[1..]);
      assert s == [s[0]] + s[1..] && t == [t[0]] + t[1..];
    }
  }

  lemma HeadKeepsOwnPriority(s: seq<Question>)
    ensures s != [] ==> WithPriority(s, s[0].priority) != []
  {
  }

  /** Two non-empty sorted lists that agree on the questions of the weights
      of their heads start with the same question. */
  lemma SameHeads(s: seq<Question>, t: seq<Question>)
    requires s != [] && t != []
    requires SortedByPriority(s) && SortedByPriority(t)
    requires WithPriority(s, s[0].priority) == WithPriority(t, s[0].priority)
    requires WithPriority(s, t[0].priority) == WithPriority(t, t[0].priority)
    ensures s[0] == t[0]
  {
    var a, b := s[0].priority, t[0].priority;
    HeadKeepsOwnPriority(s);
    HeadKeepsOwnPriority(t);
    HeadOutweighs(t, a);
    HeadOutweighs(s, b);
    assert WithPriority(s, a)[0] == s[0];
    assert WithPriority(t, a)[0] == t[0];
  }

  /** Lists with the same head that agree on weight `p` agree on it without
      their heads. */
  lemma SameTails(s: seq<Question>, t: seq<Question>, p: nat)
    requires s != [] && t != [] && s[0] == t[0]
    requires WithPriority(s, p) == WithPriority(t, p)
    ensures WithPriority(s[1..], p) == WithPriority(t[1..], p)
  {
    var h := if s[0].priority == p then [s[0]] else [];
    assert WithPriority(s, p) == h + WithPriority(s[1..], p);
    assert WithPriority(t, p) == h + WithPriority(t[1..], p);
    assert (h + WithPriority(s[1..], p))[|h|..] == WithPriority(s[1..], p);
    assert (h + WithPriority(t[1..], p))[|h|..] == WithPriority(t[1..], p);
  }

  /** Sorting a list that is already in order changes nothing. */
  lemma SortSortedIsIdentity(qs: seq<Question>)
    requires SortedByPriority(qs)
    ensures SortByPriority(qs) == qs
  {
    forall p: nat
      ensures WithPriority(SortByPriority(qs), p) == WithPriority(qs, p)
    {
      SortByPriorityStable(qs, p);
    }
    StableOrderUnique(SortByPriority(qs), qs);
  }

  /** Sorting twice is sorting once. */
  lemma SortByPriorityIdempotent(qs: seq<Question>)
    ensures SortByPriority(SortByPriority(qs)) == SortByPriority(qs)
  {
    SortSortedIsIdentity(SortByPriority(qs));
  }

  /** Sorting, appending and sorting again gives the same list as appending
      and sorting once: re-sorting after every insertion is the same as
      sorting the whole list at the end. */
  lemma SortAppendSort(a: seq<Question>, b: seq<Question>)
    ensures SortByPriority(SortByPriority(a) + b) == SortByPriority(a + b)
  {
    forall p: nat
      ensures WithPriority(SortByPriority(SortByPriority(a) + b), p)
              == WithPriority(SortByPriority(a + b), p)
    {
      SortByPriorityStable(SortByPriority(a) + b, p);
      WithPriorityConcat(SortByPriority(a), b, p);
      SortByPriorityStable(a, p);
      WithPriorityConcat(a, b, p);
      SortByPriorityStable(a + b, p);
    }
    StableOrderUnique(SortByPriority(SortByPriority(a) + b), SortByPriority(a + b));
  }

  /** Sorting keeps the sum of the weights. */
  lemma {:induction false} SortByPriorityKeepsSum(qs: seq<Question>)
    ensures Sum(SortByPriority(qs)) == Sum(qs)
  {
    if qs != [] {
      SortByPriorityKeepsSum(qs[1..]);
      InsertByPriorityAddsWeight(qs[0], SortByPriority(qs[1..]));
    }
  }

  lemma {:induction false} InsertByPriorityAddsWeight(q: Question, qs: seq<Question>)
    ensures Sum(InsertByPriority(q, qs)) == q.priority + Sum(qs)
  {
    if qs == [] || qs[0].priority <= q.priority {
      assert ([q] + qs)[1..] == qs;
    } else {
      var rest := InsertByPriority(q, qs[1..]);
      assert ([qs[0]] + rest)[1..] == rest;
      InsertByPriorityAddsWeight(q, qs[1..]);
    }
  }

  /** Taking one question out of a sorted list leaves it sorted, with the
      others in their relative order. */
  lemma RemoveAtKeepsSorted(qs: seq<Question>, i: nat)
    requires i < |qs| && SortedByPriority(qs)
    ensures SortedByPriority(qs[..i] + qs[i + 1..])
  {
    var r := qs[..i] + qs[i + 1..];
    forall a, b | 0 <= a < b < |r|
      ensures r[a].priority >= r[b].priority
    {
      var a', b' := if a < i then a else a + 1, if b < i then b else b + 1;
      assert r[a] == qs[a'] && r[b] == qs[b'];
    }
  }
}
