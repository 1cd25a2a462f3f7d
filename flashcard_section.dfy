/** The flashcard deck and its study session (components/flashcard-section.tsx):
    the deck, the category filter and the category list derived from it,
    the add-card form, and the study-mode state machine that walks the
    filtered view circularly, reveals answers and grades cards. */
module Flashcards {
  import opened Text
  import opened Seqs
  import opened Levels

  datatype Flashcard = Flashcard(
    id: string,
    front: string,
    back: string,
    category: string,
    difficulty: Difficulty,
    lastReviewed: string,
    correctCount: nat,
    totalReviews: nat)

  /** The add-card form (`newCard`). */
  datatype CardDraft = CardDraft(front: string, back: string, category: string, difficulty: Difficulty)

  /** The form as it starts and as a successful add leaves it. */
  const BlankDraft := CardDraft("", "", "", Easy)

  /** The category-filter value that selects every card. A real category
      spelled "all" is treated as this wildcard too. */
  const AllCategories := "all"

  /** A card was never graded correct more often than it was reviewed. */
  predicate WellFormed(card: Flashcard)
  {
    card.correctCount <= card.totalReviews
  }

  predicate AllWellFormed(cards: seq<Flashcard>)
  {
    forall i :: 0 <= i < |cards| ==> WellFormed(cards[i])
  }

  predicate UniqueIds(cards: seq<Flashcard>)
  {
    forall i, j :: 0 <= i < j < |cards| ==> cards[i].id != cards[j].id
  }

  predicate IsFreshId(cards: seq<Flashcard>, id: string)
  {
    forall i :: 0 <= i < |cards| ==> cards[i].id != id
  }

  /** The three cards the component starts with. */
  const SeedCard1 := Flashcard("1", "What is the time complexity of binary search?",
    "O(log n) - Binary search eliminates half of the remaining elements in each iteration",
    "Algorithms", Easy, "2024-01-15", 8, 10)
  const SeedCard2 := Flashcard("2", "Explain the difference between BFS and DFS",
    "BFS explores nodes level by level using a queue, while DFS explores as far as possible along each branch using a stack or recursion",
    "Graph Theory", Medium, "2024-01-14", 6, 8)
  const SeedCard3 := Flashcard("3", "What is dynamic programming?",
    "A method for solving complex problems by breaking them down into simpler subproblems and storing the results to avoid redundant calculations",
    "Dynamic Programming", Medium, "2024-01-13", 4, 6)

  function SeedDeck(): seq<Flashcard>
  {
    [SeedCard1, SeedCard2, SeedCard3]
  }

  /** The seed deck satisfies the invariants the handlers keep. */
  lemma SeedDeckValid()
    ensures AllWellFormed(SeedDeck()) && UniqueIds(SeedDeck())
  {
  }

  // ---------------------------------------------------------------------
  // Derived values

  /** `flashcards.map((card) => card.category)`. */
  function CategoryList(cards: seq<Flashcard>): (r: seq<string>)
    ensures |r| == |cards|
    ensures forall i :: 0 <= i < |cards| ==> r[i] == cards[i].category
    ensures forall c :: c in r <==> exists i :: 0 <= i < |cards| && cards[i].category == c
  {
    seq(|cards|, i requires 0 <= i < |cards| => cards[i].category)
  }

  /** `categories`: every category of the deck, once each. */
  function Categories(cards: seq<Flashcard>): (r: seq<string>)
    ensures NoDuplicates(r)
    ensures forall i :: 0 <= i < |cards| ==> cards[i].category in r
    ensures forall k :: 0 <= k < |r| ==> exists i :: 0 <= i < |cards| && cards[i].category == r[k]
  {
    var names := CategoryList(cards);
    var r := Distinct(names);
    assert forall i :: 0 <= i < |cards| ==> names[i] == cards[i].category;
    r
  }

  /** The categories are listed in the order in which each first appears in
      the deck. */
  lemma CategoriesInFirstOccurrenceOrder(cards: seq<Flashcard>)
    ensures forall i, j :: 0 <= i < j < |Categories(cards)| ==>
              FirstIndex(CategoryList(cards), Categories(cards)[i]) <
              FirstIndex(CategoryList(cards), Categories(cards)[j])
  {
    DistinctFirstOccurrenceOrder(CategoryList(cards));
  }

  /** `filteredCards`: the whole deck under the wildcard, otherwise the cards
      of the selected category in deck order. */
  function FilteredCards(cards: seq<Flashcard>, selected: string): (r: seq<Flashcard>)
    ensures |r| <= |cards|
    ensures forall k :: 0 <= k < |r| ==> r[k] in cards
    ensures selected == AllCategories ==> r == cards
    ensures selected != AllCategories ==>
              IsSubsequence(r, cards) &&
              (forall k :: 0 <= k < |r| ==> r[k].category == selected) &&
              (forall i :: 0 <= i < |cards| && cards[i].category == selected ==>
                 multiset(r)[cards[i]] == multiset(cards)[cards[i]])
  {
    if selected == AllCategories then cards
    else Filter(cards, (card: Flashcard) => card.category == selected)
  }

  /** Appending a card never shrinks a filtered view. */
  lemma FilteredCardsGrow(cards: seq<Flashcard>, card: Flashcard, selected: string)
    ensures |FilteredCards(cards + [card], selected)| >= |FilteredCards(cards, selected)|
  {
    if selected != AllCategories {
      FilterSnoc(cards, card, (c: Flashcard) => c.category == selected);
    }
  }

  /** Appending a well-formed card with a fresh id keeps every card well
      formed, keeps ids unique, and never shrinks a filtered view. */
  lemma AddKeepsInvariants(cards: seq<Flashcard>, card: Flashcard, selected: string)
    requires AllWellFormed(cards) && UniqueIds(cards)
    requires WellFormed(card) && IsFreshId(cards, card.id)
    ensures AllWellFormed(cards + [card]) && UniqueIds(cards + [card])
    ensures |FilteredCards(cards + [card], selected)| >= |FilteredCards(cards, selected)|
  {
    FilteredCardsGrow(cards, card, selected);
  }

  /** Two decks with the same categories position by position have filtered
      views of the same length. */
  lemma FilteredCardsSameLength(cards: seq<Flashcard>, other: seq<Flashcard>, selected: string)
    requires |cards| == |other|
    requires forall i :: 0 <= i < |cards| ==> cards[i].category == other[i].category
    ensures |FilteredCards(cards, selected)| == |FilteredCards(other, selected)|
  {
    if selected != AllCategories {
      var p := (c: Flashcard) => c.category == selected;
      FilterSameShape(cards, p, other, p);
    }
  }

  /** `pct` is `100 * c / t` rounded to the nearest integer, halves up:
      `pct - 1/2 <= 100 * c / t < pct + 1/2`. */
  ghost predicate RoundsHalfUp(pct: int, c: int, t: int)
  {
    2 * t * pct <= 200 * c + t < 2 * t * (pct + 1)
  }

  /** The accuracy shown on a card: 0 before any review, otherwise
      `Math.round(correctCount / totalReviews * 100)`. */
  function Accuracy(card: Flashcard): (pct: nat)
    ensures card.totalReviews == 0 ==> pct == 0
    ensures card.totalReviews > 0 ==> RoundsHalfUp(pct, card.correctCount, card.totalReviews)
    ensures WellFormed(card) ==> pct <= 100
  {
    var c, t := card.correctCount, card.totalReviews;
    if t > 0 then
      var pct := (200 * c + t) / (2 * t);
      RoundedPercentBounds(c, t, pct);
      pct
    else 0
  }

  /** `(200c + t) / (2t)` rounds `100c / t` half up, and is at most 100 when
      `c <= t`. */
  lemma RoundedPercentBounds(c: nat, t: nat, pct: int)
    requires t > 0 && pct == (200 * c + t) / (2 * t)
    ensures RoundsHalfUp(pct, c, t)
    ensures c <= t ==> pct <= 100
  {
    DivBounds(200 * c + t, 2 * t);
    if c <= t && pct > 100 {
      MulMono(2 * t, 101, pct);
    }
  }

  lemma MulMono(a: nat, b: int, c: int)
    requires b <= c
    ensures a * b <= a * c
  {
    assert a * c - a * b == a * (c - b);
  }

  /** Euclidean division brackets its dividend. */
  lemma DivBounds(a: nat, b: nat)
    requires b > 0
    ensures b * (a / b) <= a < b * (a / b + 1)
  {
    var q, m := a / b, a % b;
    assert a == b * q + m && 0 <= m < b;
    assert b * (q + 1) == b * q + b;
  }

  /** The accuracies the seed deck shows: 8 of 10, 6 of 8 and 4 of 6. */
  lemma SeedAccuracies()
    ensures Accuracy(SeedDeck()[0]) == 80
    ensures Accuracy(SeedDeck()[1]) == 75
    ensures Accuracy(SeedDeck()[2]) == 67
  {
  }

  // ---------------------------------------------------------------------
  // Adding and grading

  /** The card `addFlashcard` builds from the form: the form's fields, the
      generated id, today's date and no reviews yet. */
  function NewCard(draft: CardDraft, id: string, today: string): (card: Flashcard)
    ensures card.id == id && card.lastReviewed == today
    ensures card.front == draft.front && card.back == draft.back
    ensures card.category == draft.category && card.difficulty == draft.difficulty
    ensures card.correctCount == 0 && card.totalReviews == 0
    ensures WellFormed(card) && Accuracy(card) == 0
  {
    Flashcard(id, draft.front, draft.back, draft.category, draft.difficulty, today, 0, 0)
  }

  /** A card after one review: one more review, one more correct answer
      exactly when `correct`, reviewed `today`; everything else kept. */
  function Graded(card: Flashcard, correct: bool, today: string): (g: Flashcard)
    ensures g.totalReviews == card.totalReviews + 1
    ensures g.correctCount == if correct then card.correctCount + 1 else card.correctCount
    ensures g.lastReviewed == today
    ensures g.id == card.id && g.front == card.front && g.back == card.back
    ensures g.category == card.category && g.difficulty == card.difficulty
    ensures WellFormed(card) ==> WellFormed(g)
  {
    card.(correctCount := if correct then card.correctCount + 1 else card.correctCount,
          totalReviews := card.totalReviews + 1,
          lastReviewed := today)
  }

  /** The deck after grading the card with id `id` (the `prev.map` of
      `markAnswer`): every card with that id is graded, every other card is
      kept, and the length, each position's id and category, the counter
      invariant and the uniqueness of ids are preserved. */
  function GradeById(cards: seq<Flashcard>, id: string, correct: bool, today: string): (r: seq<Flashcard>)
    ensures |r| == |cards|
    ensures forall i :: 0 <= i < |cards| && cards[i].id == id ==> r[i] == Graded(cards[i], correct, today)
    ensures forall i :: 0 <= i < |cards| && cards[i].id != id ==> r[i] == cards[i]
    ensures forall i :: 0 <= i < |cards| ==> r[i].id == cards[i].id && r[i].category == cards[i].category
    ensures AllWellFormed(cards) ==> AllWellFormed(r)
    ensures UniqueIds(cards) ==> UniqueIds(r)
  {
    seq(|cards|, i requires 0 <= i < |cards| =>
      if cards[i].id == id then Graded(cards[i], correct, today) else cards[i])
  }

  /** With unique ids, grading by the id of the card at `k` changes that card
      and no other. */
  lemma GradeTargetsOne(cards: seq<Flashcard>, k: nat, correct: bool, today: string)
    requires UniqueIds(cards) && k < |cards|
    ensures GradeById(cards, cards[k].id, correct, today) == cards[k := Graded(cards[k], correct, today)]
  {
  }

  /** Grading an id that no card has leaves the deck as it was. */
  lemma GradeUnknownId(cards: seq<Flashcard>, id: string, correct: bool, today: string)
    requires IsFreshId(cards, id)
    ensures GradeById(cards, id, correct, today) == cards
  {
  }

  /** Grading the card at position `idx` of a filtered view changes exactly
      that card of the deck, keeps the invariants and keeps the view's
      length, so the session index stays meaningful. */
  lemma GradeViewCard(cards: seq<Flashcard>, selected: string, idx: nat, correct: bool, today: string)
    requires AllWellFormed(cards) && UniqueIds(cards) && idx < |FilteredCards(cards, selected)|
    ensures var g := GradeById(cards, FilteredCards(cards, selected)[idx].id, correct, today);
              AllWellFormed(g) && UniqueIds(g) &&
              |FilteredCards(g, selected)| == |FilteredCards(cards, selected)| &&
              exists k :: 0 <= k < |cards| && cards[k] == FilteredCards(cards, selected)[idx] &&
                g == cards[k := Graded(cards[k], correct, today)]
  {
    var card := FilteredCards(cards, selected)[idx];
    var k :| 0 <= k < |cards| && cards[k] == card;
    GradeTargetsOne(cards, k, correct, today);
    FilteredCardsSameLength(cards, GradeById(cards, card.id, correct, today), selected);
  }

  // ---------------------------------------------------------------------
  // Circular navigation

  /** `nextCard`: `(prev + 1) % filteredCards.length`. */
  function NextIndex(i: nat, len: nat): (j: nat)
    requires len > 0
    ensures j < len
  {
    (i + 1) % len
  }

  /** `prevCard`: `(prev - 1 + filteredCards.length) % filteredCards.length`.
      The dividend is never negative, so JavaScript's `%` and Dafny's agree. */
  function PrevIndex(i: nat, len: nat): (j: nat)
    requires len > 0
    ensures j < len
  {
    (i - 1 + len) % len
  }

  lemma PrevUndoesNext(i: nat, len: nat)
    requires i < len
    ensures PrevIndex(NextIndex(i, len), len) == i
  {
  }

  lemma NextUndoesPrev(i: nat, len: nat)
    requires i < len
    ensures NextIndex(PrevIndex(i, len), len) == i
  {
  }

  /** The index after `n` presses of "Next". */
  function Forward(i: nat, len: nat, n: nat): (j: nat)
    requires len > 0
    ensures j < len || (n == 0 && j == i)
  {
    if n == 0 then i else NextIndex(Forward(i, len, n - 1), len)
  }

  /** The index after `n` presses of "Previous". */
  function Backward(i: nat, len: nat, n: nat): (j: nat)
    requires len > 0
    ensures j < len || (n == 0 && j == i)
  {
    if n == 0 then i else PrevIndex(Backward(i, len, n - 1), len)
  }

  /** `n` presses of "Next" move the index `n` places round the view. */
  lemma {:induction false} ForwardIsModular(i: nat, len: nat, n: nat)
    requires i < len
    ensures Forward(i, len, n) == (i + n) % len
  {
    if n == 0 {
      ModUnique(i, 0, i, len);
    } else {
      ForwardIsModular(i, len, n - 1);
      ModSucc(i + n - 1, len);
    }
  }

  /** `n` presses of "Previous" move the index `n` places back round the view. */
  lemma {:induction false} BackwardIsModular(i: nat, len: nat, n: nat)
    requires i < len
    ensures Backward(i, len, n) == (i - n) % len
  {
    if n == 0 {
      ModUnique(i, 0, i, len);
    } else {
      BackwardIsModular(i, len, n - 1);
      ModPred(i - n + 1, len);
    }
  }

  /** The remainder and quotient are determined by any decomposition
      `a == q * len + r` with `0 <= r < len`. */
  lemma ModUnique(a: int, q: int, r: int, len: nat)
    requires len > 0 && 0 <= r < len && a == q * len + r
    ensures a % len == r
  {
    var q', r' := a / len, a % len;
    assert a == q' * len + r';
    assert (q - q') * len == r' - r;
    if q > q' {
      MulMono(len, 1, q - q');
    } else if q < q' {
      MulMono(len, 1, q' - q);
    }
  }

  lemma ModSucc(a: int, len: nat)
    requires len > 0
    ensures (a % len + 1) % len == (a + 1) % len
  {
    var q, r := a / len, a % len;
    if r + 1 < len {
      ModUnique(r + 1, 0, r + 1, len);
      ModUnique(a + 1, q, r + 1, len);
    } else {
      ModUnique(r + 1, 1, 0, len);
      ModUnique(a + 1, q + 1, 0, len);
    }
  }

  lemma ModPred(a: int, len: nat)
    requires len > 0
    ensures (a % len - 1 + len) % len == (a - 1) % len
  {
    var q, r := a / len, a % len;
    if r > 0 {
      ModUnique(r - 1 + len, 1, r - 1, len);
      ModUnique(a - 1, q, r - 1, len);
    } else {
      ModUnique(r - 1 + len, 0, len - 1, len);
      ModUnique(a - 1, q - 1, len - 1, len);
    }
  }

  /** Going once round the view, either way, returns to the starting card. */
  lemma WrapAround(i: nat, len: nat)
    requires i < len
    ensures Forward(i, len, len) == i
    ensures Backward(i, len, len) == i
  {
    ForwardIsModular(i, len, len);
    BackwardIsModular(i, len, len);
    ModUnique(i + len, 1, i, len);
    ModUnique(i - len, -1, i, len);
  }

  // ---------------------------------------------------------------------
  // The component

  /** The state of `FlashcardSection`: the deck, the study-session flags,
      the category filter and the add-card form. */
  class FlashcardSection {
    var flashcards: seq<Flashcard>
    var isStudyMode: bool
    var currentCardIndex: nat
    var showAnswer: bool
    var selectedCategory: string
    var newCard: CardDraft

    /** Every card keeps correctCount <= totalReviews, ids are unique, and
        while studying the index points into the non-empty filtered view. */
    ghost predicate Valid()
      reads this
    {
      AllWellFormed(flashcards) && UniqueIds(flashcards) &&
      (isStudyMode ==> currentCardIndex < |FilteredCards(flashcards, selectedCategory)|)
    }

    /** `filteredCards` for the current state: cards of the deck, all of
        them under the wildcard, otherwise only those of the selected
        category. */
    function View(): (r: seq<Flashcard>)
      reads this
      ensures |r| <= |flashcards|
      ensures selectedCategory == AllCategories ==> r == flashcards
      ensures forall k :: 0 <= k < |r| ==>
                r[k] in flashcards && (selectedCategory == AllCategories || r[k].category == selectedCategory)
    {
      FilteredCards(flashcards, selectedCategory)
    }

    /** The card the study view shows (`filteredCards[currentCardIndex]`). */
    function CurrentCard(): (card: Flashcard)
      reads this
      requires Valid() && isStudyMode
      ensures card in flashcards
      ensures selectedCategory == AllCategories || card.category == selectedCategory
    {
      View()[currentCardIndex]
    }

    constructor ()
      ensures Valid()
      ensures flashcards == SeedDeck() && selectedCategory == AllCategories && newCard == BlankDraft
      ensures !isStudyMode && currentCardIndex == 0 && !showAnswer
    {
      flashcards := SeedDeck();
      isStudyMode := false;
      currentCardIndex := 0;
      showAnswer := false;
      selectedCategory := AllCategories;
      newCard := BlankDraft;
      SeedDeckValid();
    }

    /** The form's change handlers: they replace the draft and nothing else. */
    method EditNewCard(draft: CardDraft)
      requires Valid()
      modifies this`newCard
      ensures Valid() && newCard == draft
    {
      newCard := draft;
    }

    /** The category select, which is shown only outside the study view. */
    method SelectCategory(category: string)
      requires Valid() && !isStudyMode
      modifies this`selectedCategory
      ensures Valid() && selectedCategory == category
    {
      selectedCategory := category;
    }

    /** `addFlashcard`: rejected (no change) when the front or the back is
        blank after trimming; otherwise the new card is appended with no
        reviews and the form is cleared. */
    method AddFlashcard(id: string, today: string)
      requires Valid() && IsFreshId(flashcards, id)
      modifies this`flashcards, this`newCard
      ensures Valid()
      ensures Trim(old(newCard).front) != "" && Trim(old(newCard).back) != "" ==>
                flashcards == old(flashcards) + [NewCard(old(newCard), id, today)] &&
                newCard == BlankDraft
      ensures Trim(old(newCard).front) == "" || Trim(old(newCard).back) == "" ==>
                flashcards == old(flashcards) && newCard == old(newCard)
    {
      if Trim(newCard.front) != "" && Trim(newCard.back) != "" {
        var card := NewCard(newCard, id, today);
        var deck := flashcards + [card];
        AddKeepsInvariants(flashcards, card, selectedCategory);
        flashcards := deck;
        newCard := BlankDraft;
      }
    }

    /** `startStudyMode`; its button is disabled while the view is empty. */
    method StartStudyMode()
      requires Valid() && |View()| > 0
      modifies this`isStudyMode, this`currentCardIndex, this`showAnswer
      ensures Valid() && isStudyMode && currentCardIndex == 0 && !showAnswer
    {
      isStudyMode := true;
      currentCardIndex := 0;
      showAnswer := false;
    }

    /** The "Exit Study Mode" button. The index is kept; the next start
        resets it. */
    method ExitStudyMode()
      requires Valid()
      modifies this`isStudyMode
      ensures Valid() && !isStudyMode
    {
      isStudyMode := false;
    }

    /** The "Show Answer" button of the study view. */
    method RevealAnswer()
      requires Valid() && isStudyMode
      modifies this`showAnswer
      ensures Valid() && showAnswer
    {
      showAnswer := true;
    }

    /** `nextCard`: one place forward round the view, answer hidden. */
    method NextCard()
      requires Valid() && isStudyMode
      modifies this`currentCardIndex, this`showAnswer
      ensures Valid() && !showAnswer
      ensures currentCardIndex == NextIndex(old(currentCardIndex), |View()|)
    {
      currentCardIndex := NextIndex(currentCardIndex, |View()|);
      showAnswer := false;
    }

    /** `prevCard`: one place back round the view, answer hidden. */
    method PrevCard()
      requires Valid() && isStudyMode
      modifies this`currentCardIndex, this`showAnswer
      ensures Valid() && !showAnswer
      ensures currentCardIndex == PrevIndex(old(currentCardIndex), |View()|)
    {
      currentCardIndex := PrevIndex(currentCardIndex, |View()|);
      showAnswer := false;
    }

    /** `markAnswer`: offered only once the answer is shown. The current
        card, and no other, gets one more review (and one more correct
        answer when `correct`), then the session moves to the next card. */
    method MarkAnswer(correct: bool, today: string)
      requires Valid() && isStudyMode && showAnswer
      modifies this`flashcards, this`currentCardIndex, this`showAnswer
      ensures Valid() && isStudyMode && !showAnswer
      ensures flashcards == GradeById(old(flashcards), old(CurrentCard()).id, correct, today)
      ensures exists k :: 0 <= k < |flashcards| && old(flashcards)[k] == old(CurrentCard()) &&
                flashcards == old(flashcards)[k := Graded(old(flashcards)[k], correct, today)]
      ensures |View()| == old(|View()|)
      ensures currentCardIndex == NextIndex(old(currentCardIndex), |View()|)
    {
      var cardId := View()[currentCardIndex].id;
      var len := |View()|;
      GradeViewCard(flashcards, selectedCategory, currentCardIndex, correct, today);
      flashcards := GradeById(flashcards, cardId, correct, today);
      currentCardIndex := NextIndex(currentCardIndex, len);
      showAnswer := false;
    }
  }
}
