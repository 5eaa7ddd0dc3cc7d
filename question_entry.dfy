/** The manual question-entry sequencer.  It walks the category roster in
    order, collects question/answer pairs for the current category in a
    buffer, prices each by its position in the buffer, flushes the buffer
    into the accumulated set once it holds the global question count, and
    on the last category emits the whole question set. */
module QuestionEntry {
  import opened Types

  /** Points of the question at `position` (0-based) in its category. */
  function CurrentPoints(position: nat): (p: int)
    ensures 200 <= p && p % 200 == 0
    ensures p / 200 == position + 1
  {
    (position + 1) * 200
  }

  /** A category's block: every record names `name`, and the k-th record is
      worth 200 * (k + 1), so the points ascend 200, 400, ... */
  predicate Block(block: seq<QuestionRecord>, name: string)
  {
    forall k | 0 <= k < |block| :: block[k].category == name && block[k].points == CurrentPoints(k)
  }

  /** What the invariant tracks of each record: its category and its points. */
  function Tags(records: seq<QuestionRecord>): (t: seq<(string, int)>)
    ensures |t| == |records|
    ensures forall i | 0 <= i < |records| :: t[i] == (records[i].category, records[i].points)
  {
    seq(|records|, i requires 0 <= i < |records| => (records[i].category, records[i].points))
  }

  /** The tags of a full block of `count` records for the category `name`. */
  function BlockLayout(name: string, count: nat): seq<(string, int)>
  {
    seq(count, k requires 0 <= k < count => (name, CurrentPoints(k)))
  }

  /** The tags of the blocks of the first `n` categories, one after another. */
  function Layout(categories: seq<Category>, questionCount: nat, n: nat): seq<(string, int)>
    requires n <= |categories|
  {
    if n == 0 then []
    else Layout(categories, questionCount, n - 1) + BlockLayout(categories[n - 1].name, questionCount)
  }

  /** `all` is the concatenation of `n` blocks of exactly `questionCount`
      records, the i-th of them for `categories[i]`. */
  predicate Grouped(all: seq<QuestionRecord>, categories: seq<Category>, questionCount: nat, n: nat)
    requires n <= |categories|
  {
    Tags(all) == Layout(categories, questionCount, n)
  }

  /** The state the handler reads and writes: the category index, the
      per-category buffer, the accumulated set and the two input fields. */
  datatype EntryState = EntryState(
    categoryIndex: nat,
    buffer: seq<QuestionRecord>,
    accumulated: seq<QuestionRecord>,
    question: string,
    answer: string)

  /** What one press of the add button did. `AllCompleted` carries the set
      that is exported and handed to the board. */
  datatype AddOutcome =
    | MissingInformation
    | QuestionAdded
    | CategoryCompleted
    | AllCompleted(questionSet: seq<QuestionRecord>)

  datatype StepResult = StepResult(state: EntryState, outcome: AddOutcome)

  function InitialState(): EntryState
  {
    EntryState(0, [], [], "", "")
  }

  /** The sequencer's invariant.  The index stays on the roster and the
      buffer is a well-formed block of the current category.  With a
      positive question count, either entry is in progress (the buffer is
      short of the count and the accumulated set holds one full block per
      earlier category) or it has finished on the last category (the
      accumulated set holds a block for every category).  With a count
      below one the buffer can never reach it, so nothing is ever flushed. */
  predicate Valid(categories: seq<Category>, questionCount: int, s: EntryState)
  {
    && 0 < |categories|
    && s.categoryIndex < |categories|
    && Block(s.buffer, categories[s.categoryIndex].name)
    && if questionCount < 1 then
         s.categoryIndex == 0 && s.accumulated == []
       else if |s.buffer| < questionCount then
         Grouped(s.accumulated, categories, questionCount, s.categoryIndex)
       else
         s.categoryIndex == |categories| - 1
         && Grouped(s.accumulated, categories, questionCount, |categories|)
  }

  /** One press of the add button, as one atomic transition from the state
      captured by the handler to the state it leaves behind. */
  function AddQuestionStep(categories: seq<Category>, questionCount: int, s: EntryState): (r: StepResult)
    requires s.categoryIndex < |categories|
    ensures r.outcome.MissingInformation? <==> s.question == [] || s.answer == []
    ensures r.outcome.MissingInformation? ==> r.state == s
    ensures !r.outcome.MissingInformation? ==>
      var added := QuestionRecord(categories[s.categoryIndex].name, s.question, s.answer,
                                  CurrentPoints(|s.buffer|));
      && r.state.question == [] && r.state.answer == []
      && (r.outcome.QuestionAdded? <==> |s.buffer| + 1 != questionCount)
      && (r.outcome.QuestionAdded? ==>
            r.state == s.(buffer := s.buffer + [added], question := [], answer := []))
      && (r.outcome.CategoryCompleted? <==>
            |s.buffer| + 1 == questionCount && s.categoryIndex < |categories| - 1)
      && (r.outcome.CategoryCompleted? ==>
            && r.state.categoryIndex == s.categoryIndex + 1
            && r.state.buffer == []
            && r.state.accumulated == s.accumulated + s.buffer + [added])
      && (r.outcome.AllCompleted? ==>
            && r.state.categoryIndex == s.categoryIndex == |categories| - 1
            && r.state.buffer == s.buffer + [added]
            && r.state.accumulated == s.accumulated + s.buffer + [added]
            && r.outcome.questionSet == r.state.accumulated)
    ensures r.state.categoryIndex < |categories|
  {
    if s.question == [] || s.answer == [] then
      StepResult(s, MissingInformation)
    else
      var newQuestion := QuestionRecord(categories[s.categoryIndex].name, s.question, s.answer,
                                        CurrentPoints(|s.buffer|));
      var updated := s.buffer + [newQuestion];
      if |updated| == questionCount then
        if s.categoryIndex < |categories| - 1 then
          StepResult(EntryState(s.categoryIndex + 1, [], s.accumulated + updated, "", ""),
                     CategoryCompleted)
        else
          StepResult(EntryState(s.categoryIndex, updated, s.accumulated + updated, "", ""),
                     AllCompleted(s.accumulated + updated))
      else
        StepResult(EntryState(s.categoryIndex, updated, s.accumulated, "", ""), QuestionAdded)
  }

  /** The caption of the add button. */
  function ButtonLabel(categories: seq<Category>, questionCount: int, s: EntryState): (caption: string)
    ensures caption in {"Add Question", "Complete Category", "Finish All Categories"}
    ensures caption == "Add Question" <==> |s.buffer| + 1 != questionCount
    ensures caption == "Complete Category" ==> s.categoryIndex + 1 < |categories|
    ensures caption == "Finish All Categories" ==> |categories| <= s.categoryIndex + 1
  {
    if |s.buffer| + 1 == questionCount then
      if s.categoryIndex < |categories| - 1 then "Complete Category" else "Finish All Categories"
    else "Add Question"
  }

  /** The caption announces exactly what a press with both fields filled in
      will do. */
  lemma LabelPredictsOutcome(categories: seq<Category>, questionCount: int, s: EntryState)
    requires s.categoryIndex < |categories|
    requires s.question != [] && s.answer != []
    ensures var o := AddQuestionStep(categories, questionCount, s).outcome;
      && (ButtonLabel(categories, questionCount, s) == "Add Question" <==> o.QuestionAdded?)
      && (ButtonLabel(categories, questionCount, s) == "Complete Category" <==> o.CategoryCompleted?)
      && (ButtonLabel(categories, questionCount, s) == "Finish All Categories" <==> o.AllCompleted?)
  {
  }

  /** Appending the block of the next category keeps the grouping. */
  lemma GroupedExtend(all: seq<QuestionRecord>, block: seq<QuestionRecord>, categories: seq<Category>,
                      questionCount: nat, n: nat)
    requires n < |categories|
    requires Grouped(all, categories, questionCount, n)
    requires |block| == questionCount && Block(block, categories[n].name)
    ensures Grouped(all + block, categories, questionCount, n + 1)
  {
    assert Tags(block) == BlockLayout(categories[n].name, questionCount);
    assert Tags(all + block) == Tags(all) + Tags(block);
  }

  /** The layout of `n` categories is `n * questionCount` long. */
  lemma {:induction false} LayoutLength(categories: seq<Category>, questionCount: nat, n: nat)
    requires n <= |categories|
    ensures |Layout(categories, questionCount, n)| == n * questionCount
  {
    if n > 0 {
      LayoutLength(categories, questionCount, n - 1);
      assert |Layout(categories, questionCount, n)| == (n - 1) * questionCount + questionCount;
    }
  }

  /** Row `row` of block `m` of the layout is the m-th category, worth
      200 * (row + 1). */
  lemma {:induction false} LayoutAt(categories: seq<Category>, questionCount: nat, n: nat, m: nat, row: nat)
    requires n <= |categories|
    requires m < n && row < questionCount
    ensures m * questionCount + row < |Layout(categories, questionCount, n)|
    ensures Layout(categories, questionCount, n)[m * questionCount + row] == (categories[m].name, CurrentPoints(row))
  {
    var front := Layout(categories, questionCount, n - 1);
    LayoutLength(categories, questionCount, n - 1);
    if m == n - 1 {
      assert m * questionCount + row == |front| + row;
    } else {
      LayoutAt(categories, questionCount, n - 1, m, row);
    }
  }

  /** A grouped set of `n` categories holds exactly `n * questionCount` records. */
  lemma GroupedLength(all: seq<QuestionRecord>, categories: seq<Category>, questionCount: nat, n: nat)
    requires n <= |categories|
    requires Grouped(all, categories, questionCount, n)
    ensures |all| == n * questionCount
  {
    LayoutLength(categories, questionCount, n);
  }

  /** In a grouped set, the record at row `row` of block `m` belongs to the
      m-th category of the roster and is worth 200 * (row + 1). */
  lemma GroupedAt(all: seq<QuestionRecord>, categories: seq<Category>,
                  questionCount: nat, n: nat, m: nat, row: nat)
    requires n <= |categories|
    requires Grouped(all, categories, questionCount, n)
    requires m < n && row < questionCount
    ensures m * questionCount + row < |all|
    ensures all[m * questionCount + row].category == categories[m].name
    ensures all[m * questionCount + row].points == CurrentPoints(row)
  {
    LayoutAt(categories, questionCount, n, m, row);
    assert Tags(all)[m * questionCount + row] == Layout(categories, questionCount, n)[m * questionCount + row];
  }

  /** Appending a correctly priced record without reaching the count keeps
      the invariant. */
  lemma AppendKeepsValid(categories: seq<Category>, questionCount: int, s: EntryState, added: QuestionRecord)
    requires Valid(categories, questionCount, s)
    requires added.category == categories[s.categoryIndex].name && added.points == CurrentPoints(|s.buffer|)
    requires |s.buffer| + 1 != questionCount
    ensures Valid(categories, questionCount, EntryState(s.categoryIndex, s.buffer + [added], s.accumulated, "", ""))
  {
    assert Block(s.buffer + [added], categories[s.categoryIndex].name);
  }

  /** Flushing a full buffer and moving to the next category keeps the
      invariant. */
  lemma AdvanceKeepsValid(categories: seq<Category>, questionCount: int, s: EntryState, added: QuestionRecord)
    requires Valid(categories, questionCount, s)
    requires added.category == categories[s.categoryIndex].name && added.points == CurrentPoints(|s.buffer|)
    requires |s.buffer| + 1 == questionCount && s.categoryIndex < |categories| - 1
    ensures Valid(categories, questionCount,
                  EntryState(s.categoryIndex + 1, [], s.accumulated + (s.buffer + [added]), "", ""))
  {
    var updated := s.buffer + [added];
    assert Block(updated, categories[s.categoryIndex].name);
    GroupedExtend(s.accumulated, updated, categories, questionCount, s.categoryIndex);
  }

  /** Flushing a full buffer on the last category keeps the invariant. */
  lemma FinishKeepsValid(categories: seq<Category>, questionCount: int, s: EntryState, added: QuestionRecord)
    requires Valid(categories, questionCount, s)
    requires added.category == categories[s.categoryIndex].name && added.points == CurrentPoints(|s.buffer|)
    requires |s.buffer| + 1 == questionCount && s.categoryIndex == |categories| - 1
    ensures Valid(categories, questionCount,
                  EntryState(s.categoryIndex, s.buffer + [added], s.accumulated + (s.buffer + [added]), "", ""))
  {
    var updated := s.buffer + [added];
    assert Block(updated, categories[s.categoryIndex].name);
    GroupedExtend(s.accumulated, updated, categories, questionCount, s.categoryIndex);
  }

  /** Every press keeps the invariant. */
  lemma AddQuestionPreservesValid(categories: seq<Category>, questionCount: int, s: EntryState)
    requires Valid(categories, questionCount, s)
    ensures Valid(categories, questionCount, AddQuestionStep(categories, questionCount, s).state)
  {
    if s.question != [] && s.answer != [] {
      var name := categories[s.categoryIndex].name;
      var added := QuestionRecord(name, s.question, s.answer, CurrentPoints(|s.buffer|));
      var updated := s.buffer + [added];
      if |updated| != questionCount {
        AppendKeepsValid(categories, questionCount, s, added);
      } else if s.categoryIndex < |categories| - 1 {
        AdvanceKeepsValid(categories, questionCount, s, added);
      } else {
        FinishKeepsValid(categories, questionCount, s, added);
      }
    }
  }

  /** While entry is in progress, the accumulated set holds one full block
      per finished category. */
  lemma AccumulatedLength(categories: seq<Category>, questionCount: int, s: EntryState)
    requires Valid(categories, questionCount, s)
    requires 1 <= questionCount && |s.buffer| < questionCount
    ensures |s.accumulated| == s.categoryIndex * questionCount
  {
    GroupedLength(s.accumulated, categories, questionCount, s.categoryIndex);
  }

  /** The emitted set has one block of the global question count per
      category, in roster order, each priced 200, 400, ... */
  lemma CompletedSetShape(categories: seq<Category>, questionCount: int, s: EntryState)
    requires Valid(categories, questionCount, s)
    requires AddQuestionStep(categories, questionCount, s).outcome.AllCompleted?
    ensures var emitted := AddQuestionStep(categories, questionCount, s).outcome.questionSet;
      && questionCount >= 1
      && |emitted| == |categories| * questionCount
      && Grouped(emitted, categories, questionCount, |categories|)
  {
    AddQuestionPreservesValid(categories, questionCount, s);
    var r := AddQuestionStep(categories, questionCount, s);
    GroupedLength(r.outcome.questionSet, categories, questionCount, |categories|);
  }

  /** Entry has finished: the last category's block is full, so the set has
      been emitted.  The buffer is not reset afterwards. */
  predicate Finished(categories: seq<Category>, questionCount: int, s: EntryState)
  {
    Valid(categories, questionCount, s) && 1 <= questionCount && questionCount <= |s.buffer|
  }

  /** Emitting the set leaves entry finished. */
  lemma EmissionFinishes(categories: seq<Category>, questionCount: int, s: EntryState)
    requires Valid(categories, questionCount, s)
    requires AddQuestionStep(categories, questionCount, s).outcome.AllCompleted?
    ensures Finished(categories, questionCount, AddQuestionStep(categories, questionCount, s).state)
  {
    AddQuestionPreservesValid(categories, questionCount, s);
  }

  /** Once entry has finished, a press, whatever has been typed into the
      fields, neither completes a category nor emits again, and entry stays
      finished; so no later press ever completes anything. */
  lemma NoSecondCompletion(categories: seq<Category>, questionCount: int, s: EntryState,
                           question: string, answer: string)
    requires Finished(categories, questionCount, s)
    ensures var t := s.(question := question, answer := answer);
      var r := AddQuestionStep(categories, questionCount, t);
      && !r.outcome.CategoryCompleted? && !r.outcome.AllCompleted?
      && Finished(categories, questionCount, r.state)
  {
    var t := s.(question := question, answer := answer);
    AddQuestionPreservesValid(categories, questionCount, t);
  }

  /** The screen's state as a class: one object per mounting of the screen.
      The roster and the global question count are the props it was given. */
  class ManualEntryScreen {
    const categories: seq<Category>
    const questionCount: int
    var currentCategoryIndex: nat
    var questions: seq<QuestionRecord>
    var allQuestions: seq<QuestionRecord>
    var currentQuestion: string
    var currentAnswer: string

    function State(): EntryState
      reads this
    {
      EntryState(currentCategoryIndex, questions, allQuestions, currentQuestion, currentAnswer)
    }

    predicate ValidScreen()
      reads this
    {
      Valid(categories, questionCount, State())
    }

    /** Mounting the screen; it is only shown with a non-empty roster. */
    constructor (categories: seq<Category>, questionCount: int)
      requires 0 < |categories|
      ensures this.categories == categories && this.questionCount == questionCount
      ensures State() == InitialState()
      ensures ValidScreen()
    {
      this.categories := categories;
      this.questionCount := questionCount;
      currentCategoryIndex := 0;
      questions := [];
      allQuestions := [];
      currentQuestion := "";
      currentAnswer := "";
    }

    /** Typing into the question field. */
    method EditQuestion(text: string)
      requires ValidScreen()
      modifies this
      ensures ValidScreen()
      ensures State() == old(State()).(question := text)
    {
      currentQuestion := text;
    }

    /** Typing into the answer field. */
    method EditAnswer(text: string)
      requires ValidScreen()
      modifies this
      ensures ValidScreen()
      ensures State() == old(State()).(answer := text)
    {
      currentAnswer := text;
    }

    /** The add button's handler. */
    method AddQuestion() returns (outcome: AddOutcome)
      requires ValidScreen()
      modifies this
      ensures ValidScreen()
      ensures StepResult(State(), outcome) == AddQuestionStep(categories, questionCount, old(State()))
    {
      AddQuestionPreservesValid(categories, questionCount, State());
      if currentQuestion == [] || currentAnswer == [] {
        outcome := MissingInformation;
        return;
      }
      var newQuestion := QuestionRecord(categories[currentCategoryIndex].name, currentQuestion,
                                        currentAnswer, CurrentPoints(|questions|));
      var updatedQuestions := questions + [newQuestion];
      questions := updatedQuestions;
      currentQuestion := "";
      currentAnswer := "";
      if |updatedQuestions| == questionCount {
        var previous := allQuestions;
        allQuestions := allQuestions + updatedQuestions;
        if currentCategoryIndex < |categories| - 1 {
          currentCategoryIndex := currentCategoryIndex + 1;
          questions := [];
          outcome := CategoryCompleted;
        } else {
          outcome := AllCompleted(previous + updatedQuestions);
        }
      } else {
        outcome := QuestionAdded;
      }
    }
  }
}
