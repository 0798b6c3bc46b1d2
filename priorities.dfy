/** A flashcard of the study helper: a question text and the weight with
    which it is drawn. The answer verdicts rescale the weight; the list of
    questions keeps the sum of all weights. */
module Priorities {

  /** Weight of a freshly created or reset question. */
  const DefaultPriority: nat := 8

  /** `Question` is copied by value in and out of the list, so it is a value
      type here; each verdict returns the updated question. */
  datatype Question = Question(text: string, priority: nat)

  function Max(a: int, b: int): int {
    if a < b then b else a
  }

  /** `Question::new`: the given text at the default weight. */
  function NewQuestion(text: string): (q: Question)
    ensures q.text == text && q.priority == DefaultPriority
  {
    Question(text, DefaultPriority)
  }

  /** `good_answer`: halve the weight, never going from 1 down to 0. */
  function GoodAnswer(q: Question): (r: Question)
    ensures r.text == q.text
    ensures q.priority >= 1 ==> r.priority == Max(1, q.priority / 2)
    ensures q.priority >= 1 ==> 1 <= r.priority <= q.priority
    ensures q.priority >= 2 ==> r.priority < q.priority
    ensures q.priority == 1 ==> r == q
    ensures q.priority == 0 ==> r.priority == 0
  {
    if q.priority == 1 then q else q.(priority := q.priority / 2)
  }

  /** `bad_answer`: four times the weight. */
  function BadAnswer(q: Question): (r: Question)
    ensures r.text == q.text
    ensures r.priority == 4 * q.priority
    ensures q.priority >= 1 ==> r.priority > q.priority
  {
    q.(priority := q.priority * 4)
  }

  /** `so_so_answer`: twice the weight. */
  function SoSoAnswer(q: Question): (r: Question)
    ensures r.text == q.text
    ensures r.priority == 2 * q.priority
    ensures q.priority >= 1 ==> r.priority > q.priority
  {
    q.(priority := q.priority * 2)
  }

  /** `reset`: back to the weight of a new question, whatever it was. */
  function Reset(q: Question): (r: Question)
    ensures r == NewQuestion(q.text)
  {
    q.(priority := DefaultPriority)
  }

  /** A good answer takes back a so-so answer. */
  lemma GoodAnswerUndoesSoSo(q: Question)
    ensures GoodAnswer(SoSoAnswer(q)) == q
  {
  }

  /** Two good answers take back a bad answer. */
  lemma GoodAnswersUndoBad(q: Question)
    ensures GoodAnswer(GoodAnswer(BadAnswer(q))) == q
  {
  }

  /** Sum of the weights of a list of questions. */
  function Sum(qs: seq<Question>): nat {
    if qs == [] then 0 else qs[0].priority + Sum(qs[1..])
  }

  lemma {:induction false} SumConcat(a: seq<Question>, b: seq<Question>)
    ensures Sum(a + b) == Sum(a) + Sum(b)
  {
    if a == [] {
      assert a + b == b;
    } else {
      assert (a + b)[1..] == a[1..] + b;
      SumConcat(a[1..], b);
    }
  }

  /** The prefix sum grows by one weight per element. */
  lemma SumPrefixStep(qs: seq<Question>, i: nat)
    requires i < |qs|
    ensures Sum(qs[..i + 1]) == Sum(qs[..i]) + qs[i].priority
  {
    assert qs[..i + 1] == qs[..i] + [qs[i]];
    SumConcat(qs[..i], [qs[i]]);
  }

  /** Taking one element out of the list lowers the sum by its weight. */
  lemma SumRemoveAt(qs: seq<Question>, i: nat)
    requires i < |qs|
    ensures Sum(qs[..i] + qs[i + 1..]) + qs[i].priority == Sum(qs)
  {
    var front, back := qs[..i], qs[i + 1..];
    assert qs == front + ([qs[i]] + back);
    assert ([qs[i]] + back)[1..] == back;
    SumConcat(front, [qs[i]] + back);
    SumConcat(front, back);
  }
}
