# Question list of the theory practice helper

The theory practice helper is a flash-card program. It keeps a list of questions. Each question carries a weight, called its priority, and the list keeps the sum of all weights as a cached total. The program asks one question at a time: it draws a number uniformly from `[0, total)` and takes out the question whose slice of the running sums contains that number, so heavier questions come up more often. The user's verdict then rescales the question's weight before it goes back into the list:

- a good answer halves it, but never below 1;
- a so-so answer doubles it;
- a bad answer quadruples it.

The list is always kept sorted by descending weight. Questions can be imported from a plain-text file, one per line.

This project models `src/questions.rs`, the part of the program that holds these rules:

- `Priorities` (`priorities.dfy`) covers the question value, the four weight updates and the sum of weights.
- `Ordering` (`ordering.dfy`) covers the stable descending sort done by `Vec::sort_by`. It is given as the function `SortByPriority`, and the lemmas prove four things about it:
  - the result is sorted;
  - the result is a permutation of the input;
  - the sort is stable;
  - there is exactly one sorted list that is stable with respect to a given input.
- `Lottery` (`lottery.dfy`) covers the weighted draw of `extract_random`. `SelectedIndex` is the walk over the running sums. The lemmas prove that each question is picked by exactly as many draws as its weight.
- `TextInput` (`text_input.dfy`) covers the import from a text file, with four parts:
  - Rust's `str::lines`, which splits on `"\n"` and `"\r\n"`;
  - the removal of one leading `-` marker;
  - `str::trim`, which removes Unicode White_Space at both ends;
  - the resulting list of new questions.
- `QuestionLists` (`question_list.dfy`) covers the list itself. It is a class with the fields `questions` and `tot` and the invariant `Valid()`, which says that `tot` is the sum of the weights. Its methods model the following:
  - `load_from_json`, given what the file read produced;
  - `get_tot`;
  - `sort_questions`;
  - `add_question`;
  - `extract_random`, given the random draw;
  - `read_questions_from_txt`, given the file's contents.

## Model

| member | source | states |
|---|---|---|
| Priorities.NewQuestion | src/questions.rs:17-19 | a new question keeps its text and starts at weight 8 |
| Priorities.GoodAnswer | src/questions.rs:25-30 | the text is kept. For weight p >= 1 the new weight is max(1, p/2): it lies in [1, p], is strictly lower when p >= 2, and leaves the question unchanged when p = 1. Weight 0 stays 0 |
| Priorities.BadAnswer | src/questions.rs:32-34 | the text is kept; the weight is multiplied by 4, so any positive weight strictly grows |
| Priorities.SoSoAnswer | src/questions.rs:36-38 | the text is kept; the weight is doubled, so any positive weight strictly grows |
| Priorities.Reset | src/questions.rs:40-42 | a reset question equals a new question with the same text, whatever its weight was |
| Priorities.GoodAnswerUndoesSoSo | src/questions.rs:25-38 | a good answer after a so-so answer gives back the original question |
| Priorities.GoodAnswersUndoBad | src/questions.rs:25-34 | two good answers after a bad answer give back the original question |
| Priorities.SumConcat | src/questions.rs:97-99 | the total weight of two lists joined is the sum of their totals, which is why `add_question` can add the new weight to the cached total |
| Priorities.SumPrefixStep | src/questions.rs:76-78 | each element of the list raises the running total by exactly its weight |
| Priorities.SumRemoveAt | src/questions.rs:110-111 | removing the i-th question lowers the total weight by exactly that question's weight |
| Ordering.InsertByPriority | src/questions.rs:61 | inserting a question adds exactly that question to the list's multiset, and lengthens the list by one |
| Ordering.InsertByPriorityKeepsSorted | src/questions.rs:61 | inserting into a list sorted by descending weight keeps it sorted |
| Ordering.SortByPriority | src/questions.rs:60-62 | the sorted list is ordered by descending weight and is a permutation of the input |
| Ordering.WithPriorityConcat | src/questions.rs:61 | the questions of a given weight in a joined list are those of the first part followed by those of the second |
| Ordering.InsertByPriorityStable | src/questions.rs:61 | insertion changes the order of no other question among the questions of its weight |
| Ordering.SortByPriorityStable | src/questions.rs:61 | the sort is stable: for every weight, the questions of that weight keep their relative order |
| Ordering.HeadOutweighs | src/questions.rs:61 | in a sorted list the first question outweighs every weight present in the list |
| Ordering.StableOrderUnique | src/questions.rs:61 | two sorted lists that hold the same questions of each weight, in the same order, are equal. So a stable descending sort has exactly one possible result, and `SortByPriority` is that result |
| Ordering.SameHeads | src/questions.rs:61 | two sorted lists that agree on the questions of their heads' weights start with the same question |
| Ordering.SameTails | src/questions.rs:61 | lists with the same head that agree on one weight still agree on it once the heads are removed |
| Ordering.SortSortedIsIdentity | src/questions.rs:60-62 | sorting an already sorted list changes nothing |
| Ordering.SortByPriorityIdempotent | src/questions.rs:133 | sorting twice is the same as sorting once. So when at least one line of the file gives a question, or when the list was already sorted, the final sort of `read_questions_from_txt` does not change the order |
| Ordering.SortAppendSort | src/questions.rs:97-100 | sorting after each append gives the same list as appending everything and sorting once |
| Ordering.SortByPriorityKeepsSum | src/questions.rs:60-62 | sorting keeps the total weight, so `sort_questions` leaves the cached total correct |
| Ordering.InsertByPriorityAddsWeight | src/questions.rs:61 | inserting a question adds exactly its weight to the total |
| Ordering.RemoveAtKeepsSorted | src/questions.rs:111 | removing any one question from a sorted list leaves it sorted |
| Lottery.SelectedIndex | src/questions.rs:105-116 | for a draw below the total, the walk stops at a question whose slice [running sum, running sum + weight) contains the draw |
| Lottery.PrefixSumMonotone | src/questions.rs:106-116 | the running sums never decrease along the list |
| Lottery.SelectionIsUnique | src/questions.rs:106-116 | the slices of distinct questions do not overlap, so at most one question contains a given draw |
| Lottery.ZeroWeightNeverSelected | src/questions.rs:107 | a question of weight 0 is never drawn |
| Lottery.Range | src/questions.rs:105 | the draw range holds exactly the integers lo to hi - 1, and hi - lo of them |
| Lottery.SliceWithinTotal | src/questions.rs:105-107 | every question's slice lies inside [0, total) |
| Lottery.SelectedIndexIff | src/questions.rs:105-116 | a draw picks question i if and only if the draw lies in question i's slice |
| Lottery.DrawsSelectingQuestion | src/questions.rs:105-112 | of the `total` possible draws, exactly `weight` pick question i. So a question's chance of being drawn is its weight divided by the total |
| Lottery.ExampleRound | src/questions.rs:104-118 | three new questions weigh 24 together. The draw 20 passes the first two (running sum 16) and picks the third. Returning the third after a bad answer makes the total 48 |
| TextInput.TrimStart | src/questions.rs:130 | only a leading run of whitespace is removed, and what is left does not start with whitespace |
| TextInput.TrimEnd | src/questions.rs:130 | only a trailing run of whitespace is removed, and what is left does not end with whitespace |
| TextInput.Trim | src/questions.rs:130 | the trimmed text has no whitespace at either end and is no longer than the input |
| TextInput.TrimIsInnerSlice | src/questions.rs:130 | the trimmed text is a contiguous slice of the input, and only whitespace lies before and after it |
| TextInput.TrimSlice | src/questions.rs:130 | the text left by the two trims has no whitespace at its ends and is a slice of the input, starting where the leading whitespace ends, with only whitespace around it |
| TextInput.TrimKeepsTrimmed | src/questions.rs:130 | text without whitespace at its ends is left unchanged by trimming |
| TextInput.TrimIdempotent | src/questions.rs:130 | trimming twice is the same as trimming once |
| TextInput.CleanLine | src/questions.rs:127-130 | the text of a question made from a non-empty line has no whitespace at its ends and is no longer than the line. It is strictly shorter when the line starts with `-` |
| TextInput.CleanLineIsInnerSlice | src/questions.rs:127-130 | the text of a question is the line, less one leading `-`, with only whitespace cut away before and after it. Together with CleanLine this fixes the text: a slice of the line with whitespace around it and none at its own ends |
| TextInput.BlankLineGivesEmptyText | src/questions.rs:124-130 | a line made only of whitespace, or of `-` followed by whitespace, is not skipped. It becomes a question with empty text |
| TextInput.OneMarkerRemoved | src/questions.rs:127-129 | only one `-` is removed: a line `--x` gives the text `-x` |
| TextInput.MarkedText | src/questions.rs:127-130 | the line `- t` gives the text `t` when `t` is already trimmed |
| TextInput.LineEnd | src/questions.rs:123 | the position returned is that of the first line feed, or the end of the text when there is none |
| TextInput.Lines | src/questions.rs:123 | no line contains a line feed, and there are no more lines than characters |
| TextInput.LinesOfJoinLines | src/questions.rs:123 | splitting lines that were joined with line feeds gives the same lines back. This holds when no line contains a line feed or ends in a carriage return |
| TextInput.LineEndOfLine | src/questions.rs:123 | the first line feed after a line free of line feeds is the one right after it |
| TextInput.LinesOfLineThen | src/questions.rs:123 | a line ended by `"\n"` is split off as the first line |
| TextInput.LinesOfLastLine | src/questions.rs:123 | a last line with no line ending, as at the usual end of a file, is given back whole as one line |
| TextInput.LinesOfCrLfLine | src/questions.rs:123 | a line ended by `"\r\n"` is split off as the first line, without its carriage return |
| TextInput.QuestionsFromLines | src/questions.rs:123-131 | the file gives at most one question per line |
| TextInput.QuestionsFromLinesConcat | src/questions.rs:123-131 | the questions of two blocks of lines are the questions of the first block followed by those of the second |
| TextInput.QuestionsFromLinesStep | src/questions.rs:123-131 | reading one more line adds its question, or nothing if the line is empty |
| TextInput.QuestionsFromOneLine | src/questions.rs:124-131 | an empty line gives no question; any other line gives exactly one, made from its cleaned text |
| TextInput.QuestionsAtDefaultWeight | src/questions.rs:131 | every imported question has weight 8 |
| TextInput.SumOfNewQuestions | src/questions.rs:131 | the imported questions weigh 8 times their number |
| QuestionLists.ComputeTotal | src/questions.rs:75-78 | the recomputation loop of `load_from_json` gives the sum of the weights |
| QuestionLists.AddingOneMore | src/questions.rs:97-100 | adding one more question, by appending and sorting, gives the list sorted with all the questions added so far |
| QuestionLists.AfterAddingLine | src/questions.rs:123-131 | reading one more line leaves the list unchanged if the line is empty. Otherwise it is one `add_question` of that line's question |
| QuestionLists.FinalSort | src/questions.rs:133 | the last sort of the import gives the old list and the new questions in sorted order, with total weight old total + 8 × number of new questions |
| QuestionLists.QuestionList.Load | src/questions.rs:64-89 | a missing or unparsable file gives the empty list with total 0. Otherwise the stored questions are sorted and the total is recomputed, ignoring the stored total. Either way the list is sorted and the invariant holds |
| QuestionLists.QuestionList.GetTot | src/questions.rs:56-58 | under the invariant, the reported total is the sum of the weights |
| QuestionLists.QuestionList.SortQuestions | src/questions.rs:60-62 | the list becomes its stable descending sort and the total does not change. The multiset of questions and the invariant are kept |
| QuestionLists.QuestionList.AddQuestion | src/questions.rs:97-102 | the total grows by the question's weight and the list becomes the sort of the old list plus the question. It is sorted and the invariant is kept |
| QuestionLists.QuestionList.ExtractRandom | src/questions.rs:104-118 | the returned question is the one the draw selects, and it has a positive weight. It is removed from the list and its weight is subtracted from the total. The invariant and the order are kept, and the fallback after the loop cannot be reached |
| QuestionLists.QuestionList.AddLineQuestions | src/questions.rs:123-132 | the loop adds, in file order, one question per non-empty line. When at least one line gives a question, the list becomes the sort of the old list plus the new questions; when none does, the list is left exactly as it was. The total grows by 8 per question |
| QuestionLists.QuestionList.ReadQuestionsFromText | src/questions.rs:120-134 | the list becomes the sort of the old list plus the questions from the file's non-empty lines, and it is sorted. The total grows by 8 per new question and the invariant is kept |

## Left out

- The JSON layer is not modelled: `serde_json` parsing and printing, `save_to_json`, the fixed file name `questions.json` and the `println!` on a missing file. `Load` takes what reading produced (`JsonFile`) instead, and the save that `add_question` does after sorting is not modelled.
- Randomness: `rand::thread_rng().gen_range(0..tot)` is replaced by the parameter `r` of `ExtractRandom`. The model describes the result for every possible draw, and `DrawsSelectingQuestion` counts the draws that pick each question.
- File reading: `fs::read_to_string` is not modelled, and neither is its panic on an unreadable path. `ReadQuestionsFromText` takes the file's contents.
- `Vec::sort_by` is modelled by its result: `SortByPriority` is a stable insertion sort, and `StableOrderUnique` shows there is only one stable result. The merge-sort steps Rust performs in place are not modelled.
- Priorities.BadAnswer: the weights are unbounded naturals, so `usize` overflow is not modelled.
- Priorities.SoSoAnswer: the weights are unbounded naturals, so `usize` overflow is not modelled.
- QuestionLists.QuestionList.AddQuestion: `usize` overflow of the total is not modelled.
- QuestionLists.ComputeTotal: `usize` overflow of the recomputed total (src/questions.rs:77) is not modelled, so stored weights whose sum exceeds `usize::MAX` are outside the model.
- QuestionLists.QuestionList.Load: the same `usize` overflow of the recomputed total is not modelled.
- QuestionLists.QuestionList.ExtractRandom: requires `Valid()`, the invariant that `tot` is the sum of the weights. `Load`, `AddQuestion`, `SortQuestions`, `ExtractRandom` and `ReadQuestionsFromText` all keep the invariant. If the total were stale, the Rust code could return the last question without removing it (line 117), underflow `tot` or panic on an empty list. The model does not describe those outcomes. `r < tot` also demands `tot > 0`, because `gen_range(0..0)` (line 105) panics. A non-empty list whose weights are all 0 makes the Rust code panic there; such a list arises only from a stored file or after a release-build wrap-around. The model excludes that call.
- `get_text` is not modelled as an operation: it is the datatype field `text`.
- `QuestionList::default` is not modelled separately: it only calls `load_from_json`.
- `src/ui.rs` and `src/main.rs` (the window, the buttons and the score display) are not part of this model. This includes the loop in `ui.rs` that resets every question in place and recounts the total.
- `src/questions.rs` has no remove or reset-all operation on the list, so the model has none.
- `good_answer` only special-cases weight 1, so a stored weight of 0 stays 0; the model follows the code (`GoodAnswer`). In the model, weight 0 never arises from `new`, `reset` or the answer updates, only from a stored file. In the Rust code the `usize` multiplications of `bad_answer` and `so_so_answer` (src/questions.rs:33, 37) can also wrap to 0 in a release build, as the overflow lines above note.
- `str::lines` keeps a lone `"\r"` at the very end of the text as part of the last line, because only `"\r\n"` counts as a line end. The model (`Lines`) does the same.
