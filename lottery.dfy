/** The weighted draw of `extract_random`: a number r in [0, total) picks the
    question whose slice of the prefix sums contains r, so each question is
    picked by as many draws as its weight. */
module Lottery {
  import opened Priorities

  /** Draw `r` lands in the slice [Sum(qs[..i]), Sum(qs[..i]) + weight) of
      question `i`. */
  predicate Selects(qs: seq<Question>, r: nat, i: nat) {
    i < |qs| && Sum(qs[..i]) <= r < Sum(qs[..i]) + qs[i].priority
  }

  /** The question the walk stops at: skip every question whose weight does
      not exceed what is left of the draw, subtracting its weight. */
  function SelectedIndex(qs: seq<Question>, r: nat): (i: nat)
    requires r < Sum(qs)
    ensures Selects(qs, r, i)
  {
    if r < qs[0].priority then
      assert qs[..0] == [];
      0
    else
      var j := SelectedIndex(qs[1..], r - qs[0].priority);
      assert qs[..j + 1] == [qs[0]] + qs[1..][..j];
      assert ([qs[0]] + qs[1..][..j])[1..] == qs[1..][..j];
      j + 1
  }

  /** Prefix sums never decrease along the list. */
  lemma {:induction false} PrefixSumMonotone(qs: seq<Question>, i: nat, j: nat)
    requires i <= j <= |qs|
    ensures Sum(qs[..i]) <= Sum(qs[..j])
    decreases j - i
  {
    if i < j {
      SumPrefixStep(qs, i);
      PrefixSumMonotone(qs, i + 1, j);
    }
  }

  /** The slices of distinct questions do not overlap, so a draw selects at
      most one question. */
  lemma SelectionIsUnique(qs: seq<Question>, r: nat, i: nat, j: nat)
    requires Selects(qs, r, i) && Selects(qs, r, j)
    ensures i == j
  {
    if i < j {
      SumPrefixStep(qs, i);
      PrefixSumMonotone(qs, i + 1, j);
    } else if j < i {
      SumPrefixStep(qs, j);
      PrefixSumMonotone(qs, j + 1, i);
    }
  }

  /** A question of weight 0 is never selected. */
  lemma ZeroWeightNeverSelected(qs: seq<Question>, r: nat)
    requires r < Sum(qs)
    ensures qs[SelectedIndex(qs, r)].priority > 0
  {
  }

  /** The integers lo, lo + 1, ..., hi - 1. */
  function Range(lo: int, hi: int): (s: set<int>)
    ensures forall x :: x in s <==> lo <= x < hi
    ensures lo <= hi ==> |s| == hi - lo
    decreases hi - lo
  {
    if lo >= hi then {} else Range(lo, hi - 1) + {hi - 1}
  }

  /** The slice of question `i` lies inside [0, Sum(qs)). */
  lemma SliceWithinTotal(qs: seq<Question>, i: nat)
    requires i < |qs|
    ensures Sum(qs[..i]) + qs[i].priority <= Sum(qs)
  {
    SumPrefixStep(qs, i);
    PrefixSumMonotone(qs, i + 1, |qs|);
    assert qs[..|qs|] == qs;
  }

  /** A draw selects question `i` exactly when it lies in the slice of `i`. */
  lemma SelectedIndexIff(qs: seq<Question>, r: nat, i: nat)
    requires r < Sum(qs) && i < |qs|
    ensures SelectedIndex(qs, r) == i <==> Selects(qs, r, i)
  {
    if Selects(qs, r, i) {
      SelectionIsUnique(qs, r, i, SelectedIndex(qs, r));
    }
  }

  /** The draws in [0, Sum(qs)) that select question `i`. */
  function DrawsOf(qs: seq<Question>, i: nat): set<int> {
    set r: int | 0 <= r < Sum(qs) && SelectedIndex(qs, r) == i
  }

  /** Exactly `weight` of the `Sum(qs)` equally likely draws select question
      `i`: the chance of drawing a question is its weight over the total. */
  lemma DrawsSelectingQuestion(qs: seq<Question>, i: nat)
    requires i < |qs|
    ensures |DrawsOf(qs, i)| == qs[i].priority
  {
    var lo := Sum(qs[..i]);
    var hi := lo + qs[i].priority;
    SliceWithinTotal(qs, i);
    var draws := DrawsOf(qs, i);
    forall r: int
      ensures r in draws <==> r in Range(lo, hi)
    {
      if 0 <= r < Sum(qs) {
        SelectedIndexIff(qs, r, i);
      }
    }
    assert draws == Range(lo, hi);
  }

  /** Three new questions weigh 24 together; the draw 20 passes the first two
      (8 + 8 = 16 <= 20) and selects the third, and sending it back after a
      bad answer makes the total 16 + 32 = 48. */
  lemma ExampleRound(a: string, b: string, c: string)
    ensures var qs := [NewQuestion(a), NewQuestion(b), NewQuestion(c)];
            Sum(qs) == 24 && SelectedIndex(qs, 20) == 2
            && Sum(qs[..2]) + BadAnswer(qs[2]).priority == 48
  {
    var qs := [NewQuestion(a), NewQuestion(b), NewQuestion(c)];
    assert qs[1..] == [qs[1], qs[2]] && [qs[1], qs[2]][1..] == [qs[2]];
    assert [qs[2]][1..] == [] && [qs[1]][1..] == [];
    assert Sum([qs[2]]) == 8 && Sum([qs[1]]) == 8;
    assert Sum(qs) == 24;
    assert qs[..2] == [qs[0], qs[1]] && [qs[0], qs[1]][1..] == [qs[1]];
    assert Sum(qs[..2]) == 16;
    SelectedIndexIff(qs, 20, 2);
  }
}
