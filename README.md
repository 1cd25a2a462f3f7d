# Interview-prep tracker: flashcard deck and problem tracker

This project is a Dafny model of the two stateful React components of a
coding-interview preparation app:

- **FlashcardSection** (`components/flashcard-section.tsx`): a deck of
  flashcards, a category filter with the wildcard `"all"`, the list of
  distinct categories, an add-card form, and a study session. The session
  walks the filtered cards circularly, reveals the answer and grades the
  card, counting reviews and correct answers.
- **LeetCodeTracker** (`components/leetcode-tracker.tsx`): a list of
  practice problems. It has a filter that combines a case-insensitive search
  on title or topic with a difficulty select and a status select, an
  add-problem form, and per-problem status buttons.

Each component is a class whose fields are the component's state variables.
Each event handler is a method on that class, and each method is one atomic
transition. The derived values (`categories`, `filteredCards`,
`filteredProblems`, the accuracy percentage) are pure functions of the
fields. The lemmas beside them state what the components promise.

Files:

- `seqs.dfy` (module `Seqs`): `Filter` (JavaScript's `Array.prototype.filter`),
  `Distinct` (`Array.from(new Set(xs))`), and the subsequence relation.
- `text.dfy` (module `Text`): `Trim`, `ToLower` and `Includes`, the string
  methods the components call.
- `levels.dfy` (module `Levels`): the `Easy | Medium | Hard` scale that
  both records use.
- `flashcard_section.dfy` (module `Flashcards`): flashcards, the session index
  arithmetic, and the `FlashcardSection` class.
- `leetcode_tracker.dfy` (module `Problems`): problems, the filter, the
  status update, and the `LeetCodeTracker` class.

The clock is an input. `Date.now().toString()` (the new record's id) and
`new Date().toISOString().split("T")[0]` (today's date) are parameters of
the add and grade methods. The add methods require that the id is not
already in the collection, which is what the source relies on when it uses
the current time as an id. Both classes keep ids unique as part of `Valid()`.
Grading and status updates select records by id, so unique ids make them
change exactly one record.

Some handlers are only reachable from one of the two views the flashcard
component renders. The model states this as preconditions:

- The study view is rendered only when `isStudyMode` is set and the
  filtered view is non-empty. So `NextCard`, `PrevCard`, `RevealAnswer`
  and `MarkAnswer` require `isStudyMode`.
- `Valid()` keeps the index inside the non-empty filtered view whenever
  `isStudyMode` is set.
- "Start Studying" is disabled while the view is empty, so `StartStudyMode`
  requires a non-empty view.
- The grade buttons appear only after "Show Answer", so `MarkAnswer`
  requires `showAnswer`. This makes grading always follow a reveal.
- The category select is rendered only in the deck view, so
  `SelectCategory` requires that no session is running.

Behaviour of the code worth noting:

- "Exit Study Mode" clears only `isStudyMode` and keeps `currentCardIndex`.
  The next `startStudyMode` resets the index to 0.
- An unknown id in `updateProblemStatus` is a silent no-op, not a lookup
  error.
- The filter wildcard is the literal string `"all"`, not a separate "none
  selected" value. A category that really is named `"all"` therefore
  selects the whole deck.

JavaScript's `%` truncates toward zero and Dafny's `%` is Euclidean. The
two agree here because the dividends `prev + 1` and `prev - 1 + length` are
never negative.

## Model

| member | source | states |
|---|---|---|
| `Seqs.Filter` | components/leetcode-tracker.tsx:75-83 | the result is an order-preserving subsequence of the input, no longer than it; every element of it passes the test; every element of the input that passes occurs in it exactly as often as in the input; it equals the input iff every element passes |
| `Seqs.FilterSnoc` | components/flashcard-section.tsx:92 | filtering a list with one card appended equals filtering the old list, then keeping the new card iff it passes |
| `Seqs.Distinct` | components/flashcard-section.tsx:79 | `Array.from(new Set(xs))` has no duplicates and contains exactly the elements of `xs` |
| `Seqs.DistinctFirstOccurrenceOrder` | components/flashcard-section.tsx:79 | the distinct elements are listed in the order of their first occurrence, as a `Set` iterates in insertion order |
| `Text.TrimStart` | components/flashcard-section.tsx:84 | only leading white space is dropped; the result is a suffix of the input and starts with a non-space character, or is empty |
| `Text.TrimEnd` | components/flashcard-section.tsx:84 | only trailing white space is dropped; the result is a prefix of the input and ends with a non-space character, or is empty |
| `Text.Trim` | components/flashcard-section.tsx:84 | `s.trim()` is empty (falsy) iff every character of `s` is white space; otherwise it starts and ends with a non-space character |
| `Text.ToLower` | components/leetcode-tracker.tsx:77-78 | lower-casing keeps the length, folds each character, and leaves no upper-case letter |
| `Text.ToLowerIdempotent` | components/leetcode-tracker.tsx:77-78 | lower-casing an already lower-cased string changes nothing |
| `Text.Includes` | components/leetcode-tracker.tsx:77-78 | `hay.includes(needle)` holds iff `needle` occurs as a contiguous substring of `hay` |
| `Text.IncludesEmpty` | components/leetcode-tracker.tsx:65 | every string includes the empty search term |
| `Levels.DifficultyNameInjective` | components/leetcode-tracker.tsx:79 | two difficulties have the same name iff they are the same difficulty |
| `Flashcards.SeedDeckValid` | components/flashcard-section.tsx:34-65 | in the seed deck every card has `correctCount <= totalReviews` and the ids are unique |
| `Flashcards.CategoryList` | components/flashcard-section.tsx:79 | `flashcards.map((card) => card.category)` has one entry per card, the category of the card at the same position, and holds exactly the categories that some card has |
| `Flashcards.Categories` | components/flashcard-section.tsx:79 | `categories` has no duplicates, contains every card's category, and contains only categories of cards |
| `Flashcards.CategoriesInFirstOccurrenceOrder` | components/flashcard-section.tsx:79 | categories are listed in the order in which each first appears in the deck |
| `Flashcards.FilteredCards` | components/flashcard-section.tsx:80-81 | with `"all"` the view is the whole deck; otherwise it is an order-preserving subsequence whose cards all have the selected category, and every card of that category occurs in it as often as in the deck |
| `Flashcards.FilteredCardsGrow` | components/flashcard-section.tsx:92 | appending a card never shrinks a filtered view |
| `Flashcards.AddKeepsInvariants` | components/flashcard-section.tsx:85-92 | appending a well-formed card with a fresh id keeps every card well formed, keeps ids unique, and never shrinks a filtered view |
| `Flashcards.FilteredCardsSameLength` | components/flashcard-section.tsx:121-132 | a deck whose cards keep their categories position by position has a view of the same length |
| `Flashcards.Accuracy` | components/flashcard-section.tsx:322 | accuracy is 0 with no reviews; otherwise it is `100 * correctCount / totalReviews` rounded to the nearest integer, halves up; it is at most 100 when `correctCount <= totalReviews` |
| `Flashcards.RoundedPercentBounds` | components/flashcard-section.tsx:322 | `(200c + t) / (2t)` lies within one half of `100c / t`, and is at most 100 when `c <= t` |
| `Flashcards.SeedAccuracies` | components/flashcard-section.tsx:42-63 | the seed cards show 80, 75 (6 of 8) and 67 |
| `Flashcards.NewCard` | components/flashcard-section.tsx:85-91 | a new card carries the form's front, back, category and difficulty, the given id and date, and zero counters, so it is well formed with accuracy 0 |
| `Flashcards.Graded` | components/flashcard-section.tsx:124-129 | grading adds one review, adds one correct answer iff `correct`, sets `lastReviewed`, keeps every other field, and keeps `correctCount <= totalReviews` |
| `Flashcards.GradeById` | components/flashcard-section.tsx:121-132 | every card with the graded id becomes its graded version and every other card is kept; the deck length, each position's id and category, the counter invariant of every card and unique ids are preserved |
| `Flashcards.GradeTargetsOne` | components/flashcard-section.tsx:120-132 | with unique ids, grading by the id of card `k` changes card `k` and no other |
| `Flashcards.GradeUnknownId` | components/flashcard-section.tsx:122-130 | grading an id that no card has leaves the deck unchanged |
| `Flashcards.GradeViewCard` | components/flashcard-section.tsx:119-134 | grading the card at a position of the filtered view changes exactly that card of the deck, keeps the invariants, and keeps the view's length |
| `Flashcards.NextIndex` | components/flashcard-section.tsx:110 | the next index stays in `[0, length)` |
| `Flashcards.PrevIndex` | components/flashcard-section.tsx:115 | the previous index stays in `[0, length)` |
| `Flashcards.PrevUndoesNext` | components/flashcard-section.tsx:109-117 | "Previous" after "Next" returns to the same card |
| `Flashcards.NextUndoesPrev` | components/flashcard-section.tsx:109-117 | "Next" after "Previous" returns to the same card |
| `Flashcards.ForwardIsModular` | components/flashcard-section.tsx:110 | `n` presses of "Next" from `i` reach `(i + n) mod length` |
| `Flashcards.BackwardIsModular` | components/flashcard-section.tsx:115 | `n` presses of "Previous" from `i` reach `(i - n) mod length` |
| `Flashcards.WrapAround` | components/flashcard-section.tsx:109-117 | `length` presses of "Next", or of "Previous", return to the starting card |
| `Flashcards.FlashcardSection.View` | components/flashcard-section.tsx:80-81 | the current view holds only cards of the deck, is the whole deck under `"all"`, and otherwise holds only cards of the selected category |
| `Flashcards.FlashcardSection.CurrentCard` | components/flashcard-section.tsx:149-150 | the card the study view shows is a card of the deck, of the selected category unless the filter is `"all"` |
| `Flashcards.FlashcardSection.constructor` | components/flashcard-section.tsx:34-77 | the component starts with the seed deck, the `"all"` filter, a blank form and no session, and satisfies the invariant |
| `Flashcards.FlashcardSection.EditNewCard` | components/flashcard-section.tsx:232-275 | the form's change handlers replace the draft card and nothing else |
| `Flashcards.FlashcardSection.SelectCategory` | components/flashcard-section.tsx:291 | the category select changes only the selected category |
| `Flashcards.FlashcardSection.AddFlashcard` | components/flashcard-section.tsx:83-101 | with a blank front or back nothing changes; otherwise exactly the new card is appended after the unchanged deck and the form is cleared; the invariant is kept |
| `Flashcards.FlashcardSection.StartStudyMode` | components/flashcard-section.tsx:103-107 | a session starts at index 0 with the answer hidden; it is offered only for a non-empty view (line 283) |
| `Flashcards.FlashcardSection.ExitStudyMode` | components/flashcard-section.tsx:155 | leaving the session clears `isStudyMode` only |
| `Flashcards.FlashcardSection.RevealAnswer` | components/flashcard-section.tsx:175 | "Show Answer" sets `showAnswer` and nothing else |
| `Flashcards.FlashcardSection.NextCard` | components/flashcard-section.tsx:109-112 | the index moves one place forward round the view, the answer is hidden, and the index stays in range |
| `Flashcards.FlashcardSection.PrevCard` | components/flashcard-section.tsx:114-117 | the index moves one place back round the view, the answer is hidden, and the index stays in range |
| `Flashcards.FlashcardSection.MarkAnswer` | components/flashcard-section.tsx:119-134 | only after a reveal (lines 174-188): the current card, and no other deck entry, is graded; the view keeps its length; the index advances as in `nextCard`; the answer is hidden; the invariant is kept |
| `Problems.FilterProblems` | components/leetcode-tracker.tsx:75-83 | `filteredProblems` is an order-preserving subsequence of `problems`, holds only problems that pass search, difficulty and status, and holds every problem that passes all three as often as `problems` does |
| `Problems.MatchesSearch` | components/leetcode-tracker.tsx:76-78 | a problem matches the search iff the lower-cased term is a substring of the lower-cased title or of the lower-cased topic |
| `Problems.MatchesDifficulty` | components/leetcode-tracker.tsx:79 | `"all"` passes every problem; the name of a difficulty passes exactly the problems of that difficulty |
| `Problems.MatchesStatus` | components/leetcode-tracker.tsx:80 | `"all"` passes every problem; the name of a status passes exactly the problems with that status |
| `Problems.Matches` | components/leetcode-tracker.tsx:82 | a problem is listed iff it passes all three tests; the initial filter state passes every problem |
| `Problems.InitialFilterShowsAll` | components/leetcode-tracker.tsx:63-65 | with an empty search and both selects on `"all"`, `filteredProblems` equals `problems` |
| `Problems.DifficultyFilterSelects` | components/leetcode-tracker.tsx:79-82 | selecting a difficulty such as `"Hard"` keeps only problems of that difficulty, and the result is never longer than `problems` |
| `Problems.SearchIgnoresCase` | components/leetcode-tracker.tsx:77-78 | lower-casing the search term does not change the filtered list |
| `Problems.NewProblem` | components/leetcode-tracker.tsx:87-91 | a new problem carries the form's title, difficulty, topic, status and notes plus the given id and date |
| `Problems.AddKeepsIdsUnique` | components/leetcode-tracker.tsx:88-92 | appending a problem with a fresh id keeps ids pairwise distinct |
| `Problems.UpdateStatus` | components/leetcode-tracker.tsx:104-106 | the update keeps the length; matching records get the new status and keep every other field; other records are unchanged; unique ids stay unique |
| `Problems.UpdateStatusUnknownId` | components/leetcode-tracker.tsx:105 | an id that no problem has leaves the list unchanged |
| `Problems.UpdateStatusIdempotent` | components/leetcode-tracker.tsx:105 | applying the same update twice equals applying it once |
| `Problems.UpdateStatusTargetsOne` | components/leetcode-tracker.tsx:105 | with unique ids, the update changes exactly the record with that id |
| `Problems.LeetCodeTracker.FilteredProblems` | components/leetcode-tracker.tsx:75-83 | the listed problems are problems of the list that pass the current search and both selects, and every problem that passes them is listed as often as it occurs |
| `Problems.LeetCodeTracker.constructor` | components/leetcode-tracker.tsx:33-73 | the component starts with the seed problems, an empty search, both selects on `"all"` and a blank form |
| `Problems.LeetCodeTracker.SetSearchTerm` | components/leetcode-tracker.tsx:230 | the search box changes only the search term |
| `Problems.LeetCodeTracker.SetFilterDifficulty` | components/leetcode-tracker.tsx:233 | the difficulty select changes only the difficulty filter |
| `Problems.LeetCodeTracker.SetFilterStatus` | components/leetcode-tracker.tsx:244 | the status select changes only the status filter |
| `Problems.LeetCodeTracker.EditNewProblem` | components/leetcode-tracker.tsx:159-213 | the form's change handlers replace the draft problem and nothing else |
| `Problems.LeetCodeTracker.AddProblem` | components/leetcode-tracker.tsx:85-102 | with a blank title nothing changes; otherwise exactly the new problem is appended after the unchanged list, the form resets to empty title, topic and notes with `Easy` and `Todo`, and ids stay unique |
| `Problems.LeetCodeTracker.UpdateProblemStatus` | components/leetcode-tracker.tsx:104-106 | the list becomes the status update of the old list; ids stay unique |

## Left out

- Rendering (JSX), the dialog open flags (`isAddDialogOpen`),
  `getDifficultyColor` and `getStatusIcon`: presentation only.
- The statistics panel (`components/stats-overview.tsx`) and the page
  layout (`app/page.tsx`): every number there is a literal, so nothing is
  computed. Tallies by difficulty or status are not modelled for this
  reason.
- `Date.now()` and `new Date().toISOString()`: clock access. They are
  replaced by the `id` and `today` parameters. Freshness of the id is a
  precondition instead of a property of the clock.
- React's batched, asynchronous `setState`: each handler is one atomic
  transition. `markAnswer` reads `filteredCards.length` from the render it
  was called in. Grading keeps that length, so the model uses the length
  from before the grade.
- Accuracy: models `Math.round((c / t) * 100)` with exact rational
  rounding, `(200c + t) / (2t)`. Binary floating point can round a value
  that is mathematically an exact half differently.
- Trim: only ASCII white space (space, tab, line feed, carriage return,
  vertical tab, form feed) is trimmed. JavaScript also trims Unicode spaces
  and line separators.
- ToLower: only the ASCII letters `A`-`Z` are folded. JavaScript folds all
  of Unicode.
- Deletion of records: neither component offers it.
