/** The top-level game-setup logic: deriving the category roster from an
    uploaded question set, the four-screen navigator, and the application
    state that the screens' callbacks update. */
module GameSetup {
  import opened Types

  // ---------------------------------------------------------------------
  // Deriving the roster from an upload
  // ---------------------------------------------------------------------

  /** Some record of the upload names category `name`. */
  predicate Occurs(uploaded: seq<QuestionRecord>, name: string)
  {
    exists i | 0 <= i < |uploaded| :: uploaded[i].category == name
  }

  predicate Distinct(names: seq<string>)
  {
    forall i, j | 0 <= i < j < |names| :: names[i] != names[j]
  }

  /** The category names of the upload with repeats dropped, each kept at
      its first occurrence (the insertion order of a JavaScript Set). */
  function DistinctCategories(uploaded: seq<QuestionRecord>): (names: seq<string>)
    ensures Distinct(names)
    ensures forall name :: name in names <==> Occurs(uploaded, name)
    decreases |uploaded|
  {
    if uploaded == [] then []
    else
      var front := uploaded[..|uploaded| - 1];
      var name := uploaded[|uploaded| - 1].category;
      var names := DistinctCategories(front);
      assert forall other :: Occurs(uploaded, other) <==> Occurs(front, other) || other == name by {
        forall other | Occurs(uploaded, other) && other != name ensures Occurs(front, other) {
          var i :| 0 <= i < |uploaded| && uploaded[i].category == other;
          assert front[i] == uploaded[i];
        }
        forall other | Occurs(front, other) ensures Occurs(uploaded, other) {
          var i :| 0 <= i < |front| && front[i].category == other;
          assert uploaded[i] == front[i];
        }
      }
      if name in names then names else names + [name]
  }

  /** The index of the first record of the upload that names `name`. */
  function FirstOccurrence(uploaded: seq<QuestionRecord>, name: string): (k: nat)
    requires Occurs(uploaded, name)
    ensures k < |uploaded| && uploaded[k].category == name
    ensures forall i | 0 <= i < k :: uploaded[i].category != name
  {
    if uploaded[0].category == name then 0
    else
      var i :| 0 <= i < |uploaded| && uploaded[i].category == name;
      assert uploaded[1..][i - 1] == uploaded[i];
      1 + FirstOccurrence(uploaded[1..], name)
  }

  /** Records appended after a name's first occurrence do not move it. */
  lemma FirstOccurrenceSnoc(front: seq<QuestionRecord>, last: QuestionRecord, name: string)
    requires Occurs(front, name)
    ensures Occurs(front + [last], name)
    ensures FirstOccurrence(front + [last], name) == FirstOccurrence(front, name)
  {
    var k := FirstOccurrence(front, name);
    assert (front + [last])[k] == front[k];
  }

  /** The derived names appear in the order of their first occurrence in
      the upload. */
  lemma {:induction false} FirstOccurrenceOrder(uploaded: seq<QuestionRecord>, i: nat, j: nat)
    requires i < j < |DistinctCategories(uploaded)|
    ensures var names := DistinctCategories(uploaded);
      FirstOccurrence(uploaded, names[i]) < FirstOccurrence(uploaded, names[j])
    decreases |uploaded|
  {
    var front := uploaded[..|uploaded| - 1];
    var last := uploaded[|uploaded| - 1];
    assert uploaded == front + [last];
    var before := DistinctCategories(front);
    var names := DistinctCategories(uploaded);
    assert names[i] == before[i];
    FirstOccurrenceSnoc(front, last, before[i]);
    if j < |before| {
      assert names[j] == before[j];
      FirstOccurrenceSnoc(front, last, before[j]);
      FirstOccurrenceOrder(front, i, j);
    } else {
      assert names[j] == last.category && last.category !in before;
      assert forall k | 0 <= k < |front| :: uploaded[k].category != last.category by {
        forall k | 0 <= k < |front| ensures uploaded[k].category != last.category {
          assert uploaded[k] == front[k];
        }
      }
    }
  }

  /** The records of the upload that name `name`, in upload order. */
  function RecordsNamed(uploaded: seq<QuestionRecord>, name: string): (r: seq<QuestionRecord>)
    ensures forall k | 0 <= k < |r| :: r[k].category == name
    ensures |r| <= |uploaded|
    ensures forall x :: multiset(r)[x] == if x.category == name then multiset(uploaded)[x] else 0
    decreases |uploaded|
  {
    if uploaded == [] then []
    else
      var front := uploaded[..|uploaded| - 1];
      var last := uploaded[|uploaded| - 1];
      assert uploaded == front + [last];
      RecordsNamed(front, name) + if last.category == name then [last] else []
  }

  /** The filter keeps only records of the upload, and keeps every record
      that names `name`. */
  lemma RecordsNamedMembers(uploaded: seq<QuestionRecord>, name: string)
    ensures var r := RecordsNamed(uploaded, name);
      && (forall k | 0 <= k < |r| :: r[k] in uploaded)
      && (forall i | 0 <= i < |uploaded| && uploaded[i].category == name :: uploaded[i] in r)
  {
    var r := RecordsNamed(uploaded, name);
    forall k | 0 <= k < |r| ensures r[k] in uploaded {
      assert multiset(r)[r[k]] > 0;
    }
    forall i | 0 <= i < |uploaded| && uploaded[i].category == name ensures uploaded[i] in r {
      assert multiset(uploaded)[uploaded[i]] > 0;
    }
  }

  /** The number of records of the upload that name `name`: at least one
      exactly when the name occurs. */
  function Count(uploaded: seq<QuestionRecord>, name: string): (n: nat)
    ensures n <= |uploaded|
    ensures n == 0 <==> !Occurs(uploaded, name)
    decreases |uploaded|
  {
    if uploaded == [] then 0
    else
      var front := uploaded[..|uploaded| - 1];
      var last := uploaded[|uploaded| - 1];
      assert forall i | 0 <= i < |front| :: front[i] == uploaded[i];
      assert Occurs(uploaded, name) <==> Occurs(front, name) || last.category == name;
      Count(front, name) + if last.category == name then 1 else 0
  }

  /** The count is the length of the filtered list. */
  lemma {:induction false} CountIsFilterLength(uploaded: seq<QuestionRecord>, name: string)
    ensures Count(uploaded, name) == |RecordsNamed(uploaded, name)|
    decreases |uploaded|
  {
    if uploaded != [] {
      CountIsFilterLength(uploaded[..|uploaded| - 1], name);
    }
  }

  /** Pairs each name with the number of records naming it. */
  function WithCounts(uploaded: seq<QuestionRecord>, names: seq<string>): seq<Category>
  {
    seq(|names|, i requires 0 <= i < |names| => Category(names[i], Count(uploaded, names[i])))
  }

  /** The roster derived from an upload. */
  function CategoriesWithCounts(uploaded: seq<QuestionRecord>): seq<Category>
  {
    WithCounts(uploaded, DistinctCategories(uploaded))
  }

  /** The derived roster lists every category named in the upload exactly
      once, in the order of the distinct names, each with the number of
      records naming it, which is at least one. */
  lemma RosterOfUpload(uploaded: seq<QuestionRecord>)
    ensures var roster := CategoriesWithCounts(uploaded);
      && |roster| == |DistinctCategories(uploaded)|
      && (forall i, j | 0 <= i < j < |roster| :: roster[i].name != roster[j].name)
      && (forall i | 0 <= i < |roster| ::
            && roster[i].name == DistinctCategories(uploaded)[i]
            && Occurs(uploaded, roster[i].name)
            && 1 <= roster[i].questionCount == Count(uploaded, roster[i].name))
      && (forall name | Occurs(uploaded, name) :: exists i | 0 <= i < |roster| :: roster[i].name == name)
  {
    var names := DistinctCategories(uploaded);
    var roster := CategoriesWithCounts(uploaded);
    forall i | 0 <= i < |roster|
      ensures roster[i].name == names[i] && Occurs(uploaded, names[i])
    {
      assert names[i] in names;
    }
    forall name | Occurs(uploaded, name) ensures exists i | 0 <= i < |roster| :: roster[i].name == name {
      assert name in names;
      var i :| 0 <= i < |names| && names[i] == name;
      assert roster[i].name == name;
    }
  }

  /** The sum of the question counts of a roster. */
  function TotalQuestions(categories: seq<Category>): int
  {
    if categories == [] then 0
    else TotalQuestions(categories[..|categories| - 1]) + categories[|categories| - 1].questionCount
  }

  /** The largest question count of a non-empty roster. */
  function MaxQuestionCount(categories: seq<Category>): (m: int)
    requires 0 < |categories|
    ensures forall i | 0 <= i < |categories| :: categories[i].questionCount <= m
    ensures exists i | 0 <= i < |categories| :: categories[i].questionCount == m
  {
    var last := categories[|categories| - 1].questionCount;
    if |categories| == 1 then last
    else
      var rest := MaxQuestionCount(categories[..|categories| - 1]);
      assert forall i | 0 <= i < |categories| - 1 :: categories[..|categories| - 1][i] == categories[i];
      if rest < last then last else rest
  }

  lemma CountSnoc(uploaded: seq<QuestionRecord>, last: QuestionRecord, name: string)
    ensures Count(uploaded + [last], name) == Count(uploaded, name) + if last.category == name then 1 else 0
  {
    assert (uploaded + [last])[..|uploaded|] == uploaded;
  }

  /** One more record adds one to the total, provided its name is on the
      (duplicate-free) list being counted. */
  lemma {:induction false} TotalSnoc(uploaded: seq<QuestionRecord>, last: QuestionRecord, names: seq<string>)
    requires Distinct(names)
    ensures TotalQuestions(WithCounts(uploaded + [last], names))
         == TotalQuestions(WithCounts(uploaded, names)) + if last.category in names then 1 else 0
    decreases |names|
  {
    if names != [] {
      var front := names[..|names| - 1];
      var name := names[|names| - 1];
      assert WithCounts(uploaded + [last], names)[..|front|] == WithCounts(uploaded + [last], front);
      assert WithCounts(uploaded, names)[..|front|] == WithCounts(uploaded, front);
      TotalSnoc(uploaded, last, front);
      CountSnoc(uploaded, last, name);
      assert last.category in names <==> last.category in front || last.category == name by {
        assert names == front + [name];
      }
      assert name !in front;
    }
  }

  lemma TotalAppendName(uploaded: seq<QuestionRecord>, names: seq<string>, name: string)
    ensures TotalQuestions(WithCounts(uploaded, names + [name]))
         == TotalQuestions(WithCounts(uploaded, names)) + Count(uploaded, name)
  {
    var longer := WithCounts(uploaded, names + [name]);
    assert longer[..|names|] == WithCounts(uploaded, names) by {
      forall i | 0 <= i < |names| ensures longer[i] == WithCounts(uploaded, names)[i] {
        assert (names + [name])[i] == names[i];
      }
    }
    assert longer[|names|] == Category(name, Count(uploaded, name));
  }

  /** The derived counts add up to the size of the upload: every record is
      counted once, under its own category. */
  lemma {:induction false} CountsSumToUpload(uploaded: seq<QuestionRecord>)
    ensures TotalQuestions(CategoriesWithCounts(uploaded)) == |uploaded|
    decreases |uploaded|
  {
    if uploaded != [] {
      var front := uploaded[..|uploaded| - 1];
      var last := uploaded[|uploaded| - 1];
      assert uploaded == front + [last];
      CountsSumToUpload(front);
      var before := DistinctCategories(front);
      TotalSnoc(front, last, before);
      if last.category in before {
        assert DistinctCategories(uploaded) == before;
      } else {
        var names := before + [last.category];
        assert DistinctCategories(uploaded) == names;
        TotalAppendName(uploaded, before, last.category);
        CountSnoc(front, last, last.category);
        assert Count(front, last.category) == 0;
      }
    }
  }

  /** A non-empty upload yields a non-empty roster in which every category
      has between one question and the global count, which itself is at
      most the size of the upload. */
  lemma UploadSummary(uploaded: seq<QuestionRecord>)
    requires 0 < |uploaded|
    ensures var categories := CategoriesWithCounts(uploaded);
      && 0 < |categories|
      && MaxQuestionCount(categories) <= |uploaded|
      && forall i | 0 <= i < |categories| ::
           1 <= categories[i].questionCount <= MaxQuestionCount(categories)
  {
    var names := DistinctCategories(uploaded);
    var categories := CategoriesWithCounts(uploaded);
    assert Occurs(uploaded, uploaded[0].category);
    assert uploaded[0].category in names;
    forall i | 0 <= i < |categories|
      ensures 1 <= categories[i].questionCount <= |uploaded|
    {
      assert categories[i] == Category(names[i], Count(uploaded, names[i]));
      assert names[i] in names;
    }
  }

  // ---------------------------------------------------------------------
  // The screen navigator
  // ---------------------------------------------------------------------

  /** The callbacks the screens invoke to move between screens. */
  datatype Event = OnUploadJSON | OnManualEntry | OnStartManualEntry | OnComplete | OnBack

  /** Whether `event` can be raised while `screen` is shown.  Each screen's
      controls raise its own events.  Completion is the exception: manual
      entry hands its set over when the completion toast closes, which can
      happen after Back has left the screen, so it can arrive on any screen. */
  predicate Offered(screen: Screen, event: Event)
  {
    || event == OnComplete
    || match screen
       case Landing => event == OnUploadJSON || event == OnManualEntry
       case CategorySetup => event == OnStartManualEntry || event == OnBack
       case ManualEntry => event == OnBack
       case Board => event == OnBack
  }

  /** The screen shown after `event` on `screen`, given how many categories
      the roster holds. */
  function NextScreen(screen: Screen, event: Event, categoryCount: nat): (next: Screen)
    requires Offered(screen, event)
    ensures next == Board <==> event == OnUploadJSON || event == OnComplete
    ensures next == ManualEntry <==> event == OnStartManualEntry && 0 < categoryCount
    ensures next == CategorySetup <==>
      || event == OnManualEntry
      || (event == OnStartManualEntry && categoryCount == 0)
      || (event == OnBack && screen == ManualEntry)
    ensures next == Landing <==> event == OnBack && screen != ManualEntry
  {
    match event
    case OnUploadJSON => Board
    case OnManualEntry => CategorySetup
    case OnStartManualEntry => if 0 < categoryCount then ManualEntry else CategorySetup
    case OnComplete => Board
    case OnBack =>
      match screen
      case CategorySetup => Landing
      case ManualEntry => CategorySetup
      case _ => Landing
  }

  /** The board is entered only with a question set: an upload or a
      completed manual entry. */
  lemma BoardEntry(screen: Screen, event: Event, categoryCount: nat)
    requires Offered(screen, event)
    requires screen != Board && NextScreen(screen, event, categoryCount) == Board
    ensures event == OnUploadJSON || event == OnComplete
  {
  }

  /** Manual entry is entered only from category setup with a non-empty roster. */
  lemma ManualEntryEntry(screen: Screen, event: Event, categoryCount: nat)
    requires Offered(screen, event)
    requires screen != ManualEntry && NextScreen(screen, event, categoryCount) == ManualEntry
    ensures screen == CategorySetup && event == OnStartManualEntry && 0 < categoryCount
  {
  }

  /** Back undoes each forward step of the manual setup path. */
  lemma BackUndoesSetupStep(screen: Screen, event: Event, categoryCount: nat)
    requires Offered(screen, event) && (event == OnManualEntry || event == OnStartManualEntry)
    requires NextScreen(screen, event, categoryCount) != screen
    ensures Offered(NextScreen(screen, event, categoryCount), OnBack)
    ensures NextScreen(NextScreen(screen, event, categoryCount), OnBack, categoryCount) == screen
  {
  }

  // ---------------------------------------------------------------------
  // The application state
  // ---------------------------------------------------------------------

  /** The state held at the top of the application.  Each handler is one
      atomic transition: it reads the state it was created over and writes
      the whole new state. */
  class App {
    var currentScreen: Screen
    var categories: seq<Category>
    var currentCategory: string
    var questionCount: int
    var questions: seq<QuestionRecord>

    /** Manual entry is shown only with a non-empty roster, and every
        category on the roster has a positive question count. */
    predicate Valid()
      reads this
    {
      && (currentScreen == ManualEntry ==> 0 < |categories|)
      && forall i | 0 <= i < |categories| :: 0 < categories[i].questionCount
    }

    constructor ()
      ensures Valid()
      ensures currentScreen == Landing && categories == [] && currentCategory == ""
      ensures questionCount == 5 && questions == []
    {
      currentScreen := Landing;
      categories := [];
      currentCategory := "";
      questionCount := 5;
      questions := [];
    }

    /** An already-parsed upload: the records are stored as given, the roster
        is derived from them, the global count becomes the largest category
        count, and the board is shown. */
    method UploadJSON(uploaded: seq<QuestionRecord>)
      requires Valid() && currentScreen == Landing
      requires 0 < |uploaded|
      modifies this
      ensures Valid()
      ensures questions == uploaded
      ensures categories == CategoriesWithCounts(uploaded)
      ensures questionCount == MaxQuestionCount(categories)
      ensures currentScreen == NextScreen(old(currentScreen), OnUploadJSON, |old(categories)|) == Board
      ensures currentCategory == old(currentCategory)
    {
      UploadSummary(uploaded);
      questions := uploaded;
      var derived := CategoriesWithCounts(uploaded);
      questionCount := MaxQuestionCount(derived);
      categories := derived;
      currentScreen := Board;
    }

    method ManualEntryPressed()
      requires Valid() && currentScreen == Landing
      modifies this
      ensures Valid()
      ensures currentScreen == NextScreen(old(currentScreen), OnManualEntry, |old(categories)|)
      ensures categories == old(categories) && currentCategory == old(currentCategory)
      ensures questionCount == old(questionCount) && questions == old(questions)
    {
      currentScreen := CategorySetup;
    }

    /** Typing into the category-name field. */
    method SetCurrentCategory(text: string)
      requires Valid() && currentScreen == CategorySetup
      modifies this
      ensures Valid()
      ensures currentCategory == text
      ensures currentScreen == old(currentScreen) && categories == old(categories)
      ensures questionCount == old(questionCount) && questions == old(questions)
    {
      currentCategory := text;
    }

    /** Changing the questions-per-category input; the number is taken as given. */
    method SetQuestionCount(count: int)
      requires Valid() && currentScreen == CategorySetup
      modifies this
      ensures Valid()
      ensures questionCount == count
      ensures currentScreen == old(currentScreen) && categories == old(categories)
      ensures currentCategory == old(currentCategory) && questions == old(questions)
    {
      questionCount := count;
    }

    /** Appends the typed category with the current global count, and clears
        the field, only when a name is typed and the count is positive.
        Duplicate names are not rejected. */
    method AddCategory() returns (added: bool)
      requires Valid() && currentScreen == CategorySetup
      modifies this
      ensures Valid()
      ensures added <==> old(currentCategory) != [] && old(questionCount) > 0
      ensures categories == if added then old(categories) + [Category(old(currentCategory), old(questionCount))]
                            else old(categories)
      ensures currentCategory == if added then [] else old(currentCategory)
      ensures currentScreen == old(currentScreen)
      ensures questionCount == old(questionCount) && questions == old(questions)
    {
      added := currentCategory != [] && questionCount > 0;
      if added {
        categories := categories + [Category(currentCategory, questionCount)];
        currentCategory := "";
      }
    }

    /** Moves to manual entry only when the roster is non-empty. */
    method StartManualEntry()
      requires Valid() && currentScreen == CategorySetup
      modifies this
      ensures Valid()
      ensures currentScreen == NextScreen(old(currentScreen), OnStartManualEntry, |old(categories)|)
      ensures currentScreen == (if 0 < |categories| then ManualEntry else CategorySetup)
      ensures categories == old(categories) && currentCategory == old(currentCategory)
      ensures questionCount == old(questionCount) && questions == old(questions)
    {
      if 0 < |categories| {
        currentScreen := ManualEntry;
      }
    }

    /** Stores the entered question set and shows the board, on whichever
        screen the completion arrives. */
    method CompleteManualEntry(newQuestions: seq<QuestionRecord>)
      requires Valid()
      modifies this
      ensures Valid()
      ensures questions == newQuestions
      ensures currentScreen == NextScreen(old(currentScreen), OnComplete, |old(categories)|) == Board
      ensures categories == old(categories) && currentCategory == old(currentCategory)
      ensures questionCount == old(questionCount)
    {
      questions := newQuestions;
      currentScreen := Board;
    }

    /** The back button of category setup, manual entry and the board. */
    method Back()
      requires Valid() && currentScreen != Landing
      modifies this
      ensures Valid()
      ensures currentScreen == NextScreen(old(currentScreen), OnBack, |old(categories)|)
      ensures currentScreen == if old(currentScreen) == ManualEntry then CategorySetup else Landing
      ensures categories == old(categories) && currentCategory == old(currentCategory)
      ensures questionCount == old(questionCount) && questions == old(questions)
    {
      if currentScreen == ManualEntry {
        currentScreen := CategorySetup;
      } else {
        currentScreen := Landing;
      }
    }
  }
}
