/** The question list of the study helper: the questions, kept by descending
    weight, and a cached total of their weights from which the weighted
    draw is made. */
module QuestionLists {
  import opened Priorities
  import opened Ordering
  import opened Lottery
  import opened TextInput

  /** What reading `questions.json` gave: no file, a file that does not
      parse, or the stored questions and stored total. */
  datatype JsonFile = Missing | Unparsable | Parsed(questions: seq<Question>, tot: nat)

  /** Adds up the weights of `qs` one question at a time, as the loop of
      `load_from_json` does. */
  method ComputeTotal(qs: seq<Question>) returns (total: nat)
    ensures total == Sum(qs)
  {
    total := 0;
    for i := 0 to |qs|
      invariant total == Sum(qs[..i])
    {
      SumPrefixStep(qs, i);
      total := total + qs[i].priority;
    }
    assert qs[..|qs|] == qs;
  }

  /** The list after `add_question` was called with each of `added` in turn,
      starting from `start`. */
  ghost function AfterAdding(start: seq<Question>, added: seq<Question>): seq<Question> {
    if added == [] then start else SortByPriority(start + added)
  }

  /** Adding one more question re-sorts the list with it included. */
  lemma AddingOneMore(start: seq<Question>, added: seq<Question>, q: Question)
    ensures SortByPriority(AfterAdding(start, added) + [q]) == AfterAdding(start, added + [q])
  {
    var more := added + [q];
    assert more != [];
    if added == [] {
      assert more == [q];
    } else {
      var both := start + added;
      SortAppendSort(both, [q]);
      assert both + [q] == start + more;
    }
  }

  /** One more line of the file: an empty line changes nothing, any other
      line adds its question as `add_question` does. */
  lemma AfterAddingLine(start: seq<Question>, lines: seq<string>, k: nat)
    requires k < |lines|
    ensures var before := QuestionsFromLines(lines[..k]);
            var after := QuestionsFromLines(lines[..k + 1]);
            if lines[k] == [] then after == before
            else
              var q := NewQuestion(CleanLine(lines[k]));
              after == before + [q]
              && AfterAdding(start, after) == SortByPriority(AfterAdding(start, before) + [q])
  {
    var before := QuestionsFromLines(lines[..k]);
    QuestionsFromLinesStep(lines, k);
    if lines[k] == [] {
      assert before + [] == before;
    } else {
      AddingOneMore(start, before, NewQuestion(CleanLine(lines[k])));
    }
  }

  /** The sort at the end of the ingestion gives the start list and all
      the new questions in sorted order, weighing the start list plus the
      default weight per new question. */
  lemma FinalSort(start: seq<Question>, lines: seq<string>)
    ensures var added := QuestionsFromLines(lines);
            SortByPriority(AfterAdding(start, added)) == SortByPriority(start + added)
            && Sum(SortByPriority(start + added)) == Sum(start) + DefaultPriority * |added|
  {
    var added := QuestionsFromLines(lines);
    assert added == [] ==> start + added == start;
    SortByPriorityIdempotent(start + added);
    SortByPriorityKeepsSum(start + added);
    SumConcat(start, added);
    SumOfNewQuestions(lines);
  }

  class QuestionList {
    var questions: seq<Question>
    var tot: nat

    /** The cached total is the sum of the weights in the list. */
    ghost predicate Valid()
      reads this
    {
      tot == Sum(questions)
    }

    /** `load_from_json`: an empty list when the file is missing or does not
        parse; otherwise the stored questions, sorted, with the total worked
        out again and the stored total ignored. */
    constructor Load(file: JsonFile)
      ensures Valid() && SortedByPriority(questions)
      ensures file.Parsed? ==> questions == SortByPriority(file.questions)
      ensures !file.Parsed? ==> questions == [] && tot == 0
    {
      if file.Parsed? {
        var sorted := SortByPriority(file.questions);
        var total := ComputeTotal(sorted);
        questions, tot := sorted, total;
      } else {
        questions, tot := [], 0;
      }
    }

    /** `get_tot`: the cached total. */
    function GetTot(): (t: nat)
      reads this
      ensures Valid() ==> t == Sum(questions)
    {
      tot
    }

    /** `sort_questions`: stable sort by descending weight. */
    method SortQuestions()
      modifies this
      ensures questions == SortByPriority(old(questions)) && tot == old(tot)
      ensures SortedByPriority(questions)
      ensures multiset(questions) == multiset(old(questions))
      ensures old(Valid()) ==> Valid()
    {
      SortByPriorityKeepsSum(questions);
      questions := SortByPriority(questions);
    }

    /** `add_question`: the total grows by the question's weight, the
        question joins the list and the list is sorted again. */
    method AddQuestion(q: Question)
      modifies this
      ensures tot == old(tot) + q.priority
      ensures questions == SortByPriority(old(questions) + [q])
      ensures multiset(questions) == multiset(old(questions)) + multiset{q}
      ensures SortedByPriority(questions)
      ensures old(Valid()) ==> Valid()
    {
      SumConcat(questions, [q]);
      tot := tot + q.priority;
      questions := questions + [q];
      SortQuestions();
    }

    /** `extract_random` with the random draw `r` from [0, tot) passed in:
        walks the list, subtracting the weight of every question it passes,
        and takes out the first question that outweighs what is left of the
        draw. The fallback after the walk cannot be reached. */
    method ExtractRandom(r: nat) returns (q: Question)
      requires Valid() && r < tot
      modifies this
      ensures Valid()
      ensures var i := SelectedIndex(old(questions), r);
              q == old(questions)[i]
              && questions == old(questions)[..i] + old(questions)[i + 1..]
      ensures tot == old(tot) - q.priority
      ensures q.priority > 0
      ensures SortedByPriority(old(questions)) ==> SortedByPriority(questions)
    {
      var qs := questions;
      var num: nat := r;
      var i := 0;
      while i < |qs|
        invariant 0 <= i <= |qs|
        invariant num + Sum(qs[..i]) == r
        invariant num < Sum(qs[i..])
        invariant questions == qs && tot == Sum(qs)
      {
        assert qs[i..] == [qs[i]] + qs[i + 1..];
        if qs[i].priority > num {
          q := qs[i];
          SelectionIsUnique(qs, r, i, SelectedIndex(qs, r));
          SumRemoveAt(qs, i);
          if SortedByPriority(qs) {
            RemoveAtKeepsSorted(qs, i);
          }
          tot := tot - q.priority;
          questions := qs[..i] + qs[i + 1..];
          return;
        } else {
          SumPrefixStep(qs, i);
          num := num - qs[i].priority;
        }
        i := i + 1;
      }
      assert false;
    }

    /** The loop of `read_questions_from_txt`: `add_question` for every
        non-empty line, in file order. */
    method AddLineQuestions(lines: seq<string>)
      modifies this
      ensures questions == AfterAdding(old(questions), QuestionsFromLines(lines))
      ensures tot == old(tot) + DefaultPriority * |QuestionsFromLines(lines)|
    {
      ghost var start := questions;
      for k := 0 to |lines|
        invariant questions == AfterAdding(start, QuestionsFromLines(lines[..k]))
        invariant tot == old(tot) + DefaultPriority * |QuestionsFromLines(lines[..k])|
      {
        var line := lines[k];
        AfterAddingLine(start, lines, k);
        if line != [] {
          AddQuestion(NewQuestion(CleanLine(line)));
        }
      }
      assert lines[..|lines|] == lines;
    }

    /** `read_questions_from_txt` on the contents of the file: every
        non-empty line becomes a question of the default weight, added one by
        one, and the list is sorted once more at the end. */
    method ReadQuestionsFromText(contents: string)
      modifies this
      ensures var added := QuestionsFromLines(Lines(contents));
              questions == SortByPriority(old(questions) + added)
              && tot == old(tot) + DefaultPriority * |added|
      ensures SortedByPriority(questions)
      ensures old(Valid()) ==> Valid()
    {
      var lines := Lines(contents);
      FinalSort(questions, lines);
      AddLineQuestions(lines);
      SortQuestions();
    }
  }
}
