# Quiz-board builder: a Dafny model of its setup logic

The quiz-board builder is a React application. From the landing screen the
user either uploads a question set, which determines the roster, or builds a
roster on the category-setup screen and then types the questions in, category
by category. Either way the application then moves to a board screen. This project models the parts of that flow that are real logic, with
each event handler treated as one atomic transition:

- **Manual question entry** (`question_entry.dfy`, module `QuestionEntry`). A
  sequencer walks the roster in order. It collects question/answer pairs for
  the current category in a buffer and prices each by position: 200 × (buffer
  length + 1). When the buffer reaches the global question count it is flushed
  into the accumulated set and the sequencer moves to the next category. On the
  last category it emits the whole question set instead. The pure function
  `AddQuestionStep` specifies one press of the add button. The class
  `ManualEntryScreen` holds the screen's state, and its method `AddQuestion`
  updates that state step by step and is proved equal to the step. The
  invariant `Valid` says:
  - the accumulated set is a concatenation of full blocks, one per finished
    category, in roster order (`Grouped`, which compares each record's
    category and points with the expected `Layout`);
  - within each block the points run 200, 400, … (`Block`).
- **Game setup** (`game_setup.dfy`, module `GameSetup`). This covers:
  - deriving the roster from an upload: distinct names in first-occurrence
    order, a count of records per name, and the largest count as the global
    question count;
  - the four-screen navigator (`NextScreen`);
  - the class `App`, whose methods are the handlers that update the screen,
    the roster, the typed category name, the global count and the question set.
- **Team roster** (`team_setup.dfy`, module `TeamSetup`). The class
  `TeamSetupScreen` holds a list of at most six teams. Add takes the trimmed
  typed name with score 0, and only when that name is non-empty and the roster
  has room. Remove filters out a position. Enter acts as Add. Start hands the
  roster over when it is non-empty.
- `types.dfy` (module `Types`) mirrors the record shapes shared by the screens.

Points of the program's behaviour that the model follows:

- Manual entry collects the *global* question count for every category. It
  does not use each category's own `questionCount`
  (src/components/ManualEntryScreen.tsx:97).
- Duplicate category names are not rejected (src/App.tsx:55-63).
- The board screen is a placeholder. It ignores the roster and the questions
  it is given (src/components/BoardScreen.tsx:4-25), so there is no reveal,
  scoring or turn logic to model.
- No upload parsing or validation exists. The upload handler receives records
  that are already parsed (src/App.tsx:23-31).

## Model

| member | source | states |
|---|---|---|
| `QuestionEntry.CurrentPoints` | src/components/ManualEntryScreen.tsx:69-70 | A question's points are a positive multiple of 200: 200 × its 1-based number within the category. |
| `QuestionEntry.ButtonLabel` | src/components/ManualEntryScreen.tsx:260-264 | The caption is one of the three captions. It reads "Add Question" exactly when the next record will not fill the buffer. "Complete Category" appears only before the last category and "Finish All Categories" only on it. |
| `QuestionEntry.AddQuestionStep` | src/components/ManualEntryScreen.tsx:67-109 | If the question or answer is empty, nothing changes and the outcome is the missing-information error. Otherwise both fields are cleared and exactly one record is appended. That record carries the current category's name and 200 × (buffer length + 1) points. When the buffer reaches the global count on a category that is not the last, the buffer is flushed in order into the accumulated set, the index goes up by exactly 1 and the buffer is emptied. On the last category the index stays and the emitted set is the accumulated set followed by the buffer. The index never leaves the roster. |
| `QuestionEntry.ManualEntryScreen.AddQuestion` | src/components/ManualEntryScreen.tsx:72-139 | The handler's in-place update leaves exactly the state `AddQuestionStep` computes from the old state, returns its outcome, and keeps the invariant. |
| `QuestionEntry.ManualEntryScreen.constructor` | src/components/ManualEntryScreen.tsx:45-63 | Mounting the screen with a non-empty roster starts at category 0 with an empty buffer, an empty accumulated set and empty fields, which satisfies the invariant. |
| `QuestionEntry.ManualEntryScreen.EditQuestion` | src/components/ManualEntryScreen.tsx:206-208 | Typing replaces only the question field. |
| `QuestionEntry.ManualEntryScreen.EditAnswer` | src/components/ManualEntryScreen.tsx:228-230 | Typing replaces only the answer field. |
| `QuestionEntry.LabelPredictsOutcome` | src/components/ManualEntryScreen.tsx:260-264 | With both fields filled in, the button reads "Complete Category", "Finish All Categories" or "Add Question" exactly when a press will flush and advance, emit the set, or only append. |
| `QuestionEntry.AddQuestionPreservesValid` | src/components/ManualEntryScreen.tsx:91-103 | Every press keeps the invariant. The index stays on the roster and the buffer is a block of the current category priced 200, 400, …. While entry is in progress the accumulated set holds one full block per earlier category. After the last category it holds a block for every category. |
| `QuestionEntry.AppendKeepsValid` | src/components/ManualEntryScreen.tsx:91-93 | Appending a record that is priced by its position, without reaching the count, keeps the invariant. |
| `QuestionEntry.AdvanceKeepsValid` | src/components/ManualEntryScreen.tsx:97-103 | Flushing a full block and moving to the next category keeps the invariant. |
| `QuestionEntry.FinishKeepsValid` | src/components/ManualEntryScreen.tsx:97-104 | Flushing a full block on the last category keeps the invariant. The accumulated set then has a block for every category. |
| `QuestionEntry.LayoutAt` | src/components/ManualEntryScreen.tsx:69-70 | In the expected layout of n categories, row r of block m is the m-th category's name with 200 × (r + 1) points. |
| `QuestionEntry.GroupedExtend` | src/components/ManualEntryScreen.tsx:97-99 | Flushing a full, well-priced block of the next category onto a grouped set gives a grouped set with one more category. |
| `QuestionEntry.GroupedLength` | src/components/ManualEntryScreen.tsx:97-103 | A grouped set of n categories has exactly n × questionCount records. |
| `QuestionEntry.GroupedAt` | src/components/ManualEntryScreen.tsx:69-70 | In a grouped set, the record at row r of block m names the m-th category of the roster and is worth 200 × (r + 1). |
| `QuestionEntry.AccumulatedLength` | src/components/ManualEntryScreen.tsx:97-103 | While entry is in progress with a count of at least 1, the accumulated set has length categoryIndex × questionCount. |
| `QuestionEntry.CompletedSetShape` | src/components/ManualEntryScreen.tsx:104-109 | The emitted set has length (number of categories) × (global count). It is grouped by category in roster order, with points ascending 200, 400, … in each group. |
| `QuestionEntry.EmissionFinishes` | src/components/ManualEntryScreen.tsx:97-109 | Emitting the set leaves entry finished: the buffer is not reset and still holds a full block of the last category. |
| `QuestionEntry.NoSecondCompletion` | src/components/ManualEntryScreen.tsx:91-104 | Once entry has finished, a press, whatever is typed first, neither completes a category nor emits again, and entry stays finished. By induction over presses, no later press completes anything. |
| `GameSetup.DistinctCategories` | src/App.tsx:32-34 | The derived names are pairwise distinct. A name is among them exactly when some uploaded record carries it. |
| `GameSetup.FirstOccurrence` | src/App.tsx:32-34 | Gives the index of the first record with a given name: that record has the name and no earlier record does. |
| `GameSetup.FirstOccurrenceOrder` | src/App.tsx:32-34 | The derived names appear in the order of their first occurrence in the upload. |
| `GameSetup.RecordsNamed` | src/App.tsx:37-38 | Every kept record names the category, and no more records are kept than were uploaded. Each record naming the category is kept exactly as many times as it occurs in the upload, and no other record is kept. |
| `GameSetup.RecordsNamedMembers` | src/App.tsx:37-38 | The filter keeps only uploaded records, and keeps every uploaded record that names the category. |
| `GameSetup.Count` | src/App.tsx:35-39 | A category's count is at most the size of the upload. It is zero exactly when no record names the category. |
| `GameSetup.CountIsFilterLength` | src/App.tsx:37-38 | A category's count is the length of the filtered list of records naming it. |
| `GameSetup.RosterOfUpload` | src/App.tsx:32-39 | The derived roster (`CategoriesWithCounts`, built by `WithCounts`) lists each category named in the upload exactly once, in the order of the distinct names. Each entry carries the number of records naming it, which is at least 1. |
| `GameSetup.CountsSumToUpload` | src/App.tsx:35-39 | The per-category counts of the derived roster sum to the size of the upload. |
| `GameSetup.MaxQuestionCount` | src/App.tsx:42-45 | The global count is at least every category's count and equals one of them. |
| `GameSetup.UploadSummary` | src/App.tsx:32-45 | A non-empty upload gives a non-empty roster. Each category has between 1 and the global count of questions, and the global count is at most the size of the upload. |
| `GameSetup.NextScreen` | src/App.tsx:45-117 | The board is reached exactly by an upload or a completion. Manual entry is reached exactly by starting it with a non-empty roster. Category setup is reached exactly by the manual-entry button, by starting with an empty roster, or by Back from manual entry. Landing is reached exactly by Back from category setup or the board. |
| `GameSetup.BoardEntry` | src/App.tsx:45-81 | The board is entered only by an upload or by completing manual entry. |
| `GameSetup.ManualEntryEntry` | src/App.tsx:65-69 | Manual entry is entered only from category setup and only with a non-empty roster. |
| `GameSetup.BackUndoesSetupStep` | src/App.tsx:92-113 | Back from category setup returns to the landing screen, and back from manual entry returns to category setup. Each undoes the forward step. |
| `GameSetup.App.constructor` | src/App.tsx:10-21 | The application starts on the landing screen with an empty roster, an empty name field, a global count of 5 and no questions. |
| `GameSetup.App.UploadJSON` | src/App.tsx:23-49 | The records are stored unchanged and the roster becomes the derived one. The global count becomes its largest count and the board is shown. The invariant is kept. |
| `GameSetup.App.ManualEntryPressed` | src/App.tsx:51-53 | The landing screen's manual-entry button shows category setup and changes nothing else. |
| `GameSetup.App.SetCurrentCategory` | src/App.tsx:98 | Typing replaces only the category-name field. |
| `GameSetup.App.SetQuestionCount` | src/App.tsx:99 | The count input replaces only the global count. |
| `GameSetup.App.AddCategory` | src/App.tsx:55-63 | The typed name with the current global count is appended at the end of the roster, and the field is cleared, exactly when the name is non-empty and the count is positive. Otherwise nothing changes. Duplicates are accepted. |
| `GameSetup.App.StartManualEntry` | src/App.tsx:65-69 | Manual entry is shown exactly when the roster is non-empty. Otherwise nothing changes. |
| `GameSetup.App.CompleteManualEntry` | src/App.tsx:71-81 | On whichever screen the completion arrives, the given questions are stored and the board is shown. The roster, name field and global count do not change. |
| `GameSetup.App.Back` | src/App.tsx:102-117 | Back goes from category setup to landing, from manual entry to category setup and from the board to landing. Nothing else changes. |
| `TeamSetup.LeadingWhitespace` | src/components/TeamSetupScreen.tsx:35-36 | Counts the whitespace at the start of the input: every character it covers is whitespace, and the next one, if any, is not. |
| `TeamSetup.TrailingWhitespace` | src/components/TeamSetupScreen.tsx:35-36 | Counts the whitespace at the end of the input: every character it covers is whitespace, and the one before it, if any, is not. |
| `TeamSetup.Trim` | src/components/TeamSetupScreen.tsx:35-36 | The result has no whitespace at either end and is no longer than the input. |
| `TeamSetup.TrimRemovesOnlySurroundingWhitespace` | src/components/TeamSetupScreen.tsx:35-36 | The trimmed name is a slice of the typed name with only whitespace before and after it. Together with `Trim`'s own contract, this means trimming removes exactly the leading and trailing whitespace. |
| `TeamSetup.TrimEmptyIffBlank` | src/components/TeamSetupScreen.tsx:35 | The trimmed name is empty exactly when the typed name is all whitespace. |
| `TeamSetup.TrimKeepsTrimmed` | src/components/TeamSetupScreen.tsx:36 | A name with no whitespace at either end is left as it is. |
| `TeamSetup.TrimIdempotent` | src/components/TeamSetupScreen.tsx:36 | Trimming twice is trimming once. |
| `TeamSetup.WithoutIndex` | src/components/TeamSetupScreen.tsx:42 | Filtering by position removes one element when the index is on the list and none otherwise. |
| `TeamSetup.WithoutIndexDeletes` | src/components/TeamSetupScreen.tsx:41-43 | Filtering the roster by position deletes exactly the i-th team and keeps the others in order. An index off the roster deletes nothing. |
| `TeamSetup.RemovalKeepsInvariant` | src/components/TeamSetupScreen.tsx:41-43 | Removing keeps every name non-empty and trimmed, every score 0 and the size at most 6. The size drops by one exactly when the index is on the roster. |
| `TeamSetup.TeamSetupScreen.constructor` | src/components/TeamSetupScreen.tsx:31-32 | The roster starts empty with an empty name field. |
| `TeamSetup.TeamSetupScreen.SetTeamName` | src/components/TeamSetupScreen.tsx:87-90 | Typing replaces only the name field. |
| `TeamSetup.TeamSetupScreen.AddEnabled` | src/components/TeamSetupScreen.tsx:105-107 | The add button is enabled exactly when the typed name is not all whitespace and there are fewer than 6 teams. |
| `TeamSetup.TeamSetupScreen.AddTeam` | src/components/TeamSetupScreen.tsx:34-39 | The handler adds exactly when the button is enabled, that is when the trimmed name is non-empty and there are fewer than 6 teams. It then appends {trimmed name, score 0} and clears the field. Otherwise nothing changes. The roster never exceeds 6. |
| `TeamSetup.TeamSetupScreen.RemoveTeam` | src/components/TeamSetupScreen.tsx:41-43 | Deletes exactly the i-th team and keeps the order of the others. An out-of-range index leaves the roster unchanged. |
| `TeamSetup.TeamSetupScreen.KeyPress` | src/components/TeamSetupScreen.tsx:45-49 | Enter has exactly the effect of the add button. Any other key changes nothing. |
| `TeamSetup.TeamSetupScreen.StartGame` | src/components/TeamSetupScreen.tsx:192-199 | The roster is handed over, as it is, exactly when it has at least one team. |

## Left out

- UploadJSON: an empty upload is excluded by a precondition. In the source, `Math.max()` of no arguments would set the global count to negative infinity (src/App.tsx:42-45).
- Upload parsing and validation do not exist in the source. The landing screen expects an `onUploadCSV` callback and never calls the upload handler it is given (src/components/LandingScreen.tsx:5,20; src/App.tsx:88). The upload is therefore modelled as a sequence of records that are already parsed.
- The JSON download at the end of manual entry creates a Blob, an object URL and a DOM anchor. This is browser I/O and is left out. Only the list that would be serialised is modelled: the `AllCompleted` outcome.
- The list reaches the application later, when the completion toast closes (src/components/ManualEntryScreen.tsx:126-134). By then Back may have left manual entry. The model keeps the emission and `App.CompleteManualEntry` as two separate transitions, and the completion may arrive on any screen. The two-second timing itself is not modelled.
- Toasts, the `isLoading` flag, the loading captions and the floating-point progress bar (src/components/ManualEntryScreen.tsx:64,68,74-80,126-137,250-256) are UI feedback and are left out.
- Board, scoring and turn rotation are not implemented in the source: `BoardScreen` is a static placeholder.
- CategorySetupScreen.tsx and LandingScreen.tsx only render.
  - CategorySetupScreen's button-disable rules use a `MIN_CATEGORIES` constant from a constants module that is not part of this model.
  - The 1..10 range of the count input is enforced by the UI library. The model therefore takes any integer count (`App.SetQuestionCount`), including zero and negative ones. Manual entry with a count below 1 never completes a category, which `QuestionEntry.Valid` records.
- The team setup screen is not reachable from the navigator, because there is no team-setup screen state (src/types/index.ts:1). It is modelled on its own.
- Trim: JavaScript's `String.prototype.trim` strips all Unicode white space and line terminators. The model strips only space, tab, line feed, carriage return, vertical tab and form feed, so it omits, for example, the no-break space, the line and paragraph separators and the byte-order mark.
- NaN and floating-point numbers are not modelled. Counts and points are mathematical integers.
- Apart from the completion callback, the App handlers require the screen whose controls raise them, because only that screen renders those controls. Calling such a handler from another screen is not modelled.
