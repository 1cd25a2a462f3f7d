/** The problem tracker (components/leetcode-tracker.tsx): the problem list,
    its three-way filter (search text, difficulty, status), the add-problem
    form and the status buttons. */
module Problems {
  import opened Text
  import opened Seqs
  import opened Levels

  datatype Status = Solved | Attempted | Todo

  /** The string the source stores and compares against a filter value. */
  function StatusName(s: Status): string
  {
    match s
    case Solved => "Solved"
    case Attempted => "Attempted"
    case Todo => "Todo"
  }

  datatype Problem = Problem(
    id: string,
    title: string,
    difficulty: Difficulty,
    topic: string,
    status: Status,
    notes: string,
    dateAdded: string)

  /** The add-problem form (`newProblem`). */
  datatype ProblemDraft = ProblemDraft(
    title: string,
    difficulty: Difficulty,
    topic: string,
    status: Status,
    notes: string)

  /** The form as it starts and as a successful add leaves it. */
  const BlankDraft := ProblemDraft("", Easy, "", Todo, "")

  /** The value of the difficulty and status selects that matches every
      problem. */
  const AnyValue := "all"

  predicate UniqueIds(problems: seq<Problem>)
  {
    forall i, j :: 0 <= i < j < |problems| ==> problems[i].id != problems[j].id
  }

  predicate IsFreshId(problems: seq<Problem>, id: string)
  {
    forall i :: 0 <= i < |problems| ==> problems[i].id != id
  }

  /** The three problems the component starts with. */
  const SeedProblem1 := Problem("1", "Two Sum", Easy, "Array", Solved,
    "Used hash map approach for O(n) solution", "2024-01-15")
  const SeedProblem2 := Problem("2", "Longest Palindromic Substring", Medium, "String", Solved,
    "Expand around centers approach", "2024-01-14")
  const SeedProblem3 := Problem("3", "Merge k Sorted Lists", Hard, "Linked List", Attempted,
    "Need to review divide and conquer approach", "2024-01-13")

  function SeedProblems(): seq<Problem>
  {
    [SeedProblem1, SeedProblem2, SeedProblem3]
  }

  // ---------------------------------------------------------------------
  // Filtering

  /** `matchesSearch`: the lower-cased term occurs in the lower-cased title
      or in the lower-cased topic. */
  function MatchesSearch(p: Problem, term: string): (r: bool)
    ensures r <==> IsSubstring(ToLower(term), ToLower(p.title)) || IsSubstring(ToLower(term), ToLower(p.topic))
  {
    Includes(ToLower(p.title), ToLower(term)) || Includes(ToLower(p.topic), ToLower(term))
  }

  /** `matchesDifficulty`: "all" passes every problem, and a difficulty's
      name passes exactly the problems of that difficulty. */
  function MatchesDifficulty(p: Problem, filter: string): (r: bool)
    ensures filter == AnyValue ==> r
    ensures forall d: Difficulty :: filter == DifficultyName(d) ==> (r <==> p.difficulty == d)
  {
    DifficultyNameInjective(p.difficulty, Easy);
    DifficultyNameInjective(p.difficulty, Medium);
    DifficultyNameInjective(p.difficulty, Hard);
    filter == AnyValue || DifficultyName(p.difficulty) == filter
  }

  /** `matchesStatus`: "all" passes every problem, and a status's name
      passes exactly the problems with that status. */
  function MatchesStatus(p: Problem, filter: string): (r: bool)
    ensures filter == AnyValue ==> r
    ensures forall s: Status :: filter == StatusName(s) ==> (r <==> p.status == s)
  {
    filter == AnyValue || StatusName(p.status) == filter
  }

  /** A problem is listed when it passes all three tests; the initial
      filter state (empty search, both selects on "all") passes every
      problem. */
  function Matches(p: Problem, term: string, difficulty: string, status: string): (r: bool)
    ensures r <==> MatchesSearch(p, term) && MatchesDifficulty(p, difficulty) && MatchesStatus(p, status)
    ensures term == "" && difficulty == AnyValue && status == AnyValue ==> r
  {
    IncludesEmpty(ToLower(p.title));
    MatchesSearch(p, term) && MatchesDifficulty(p, difficulty) && MatchesStatus(p, status)
  }

  /** `filteredProblems`: the problems that pass all three tests, in list
      order, each as often as it occurs, and every such problem. */
  function FilterProblems(problems: seq<Problem>, term: string, difficulty: string, status: string): (r: seq<Problem>)
    ensures |r| <= |problems|
    ensures IsSubsequence(r, problems)
    ensures forall k :: 0 <= k < |r| ==> r[k] in problems && Matches(r[k], term, difficulty, status)
    ensures forall i :: 0 <= i < |problems| && Matches(problems[i], term, difficulty, status) ==>
              multiset(r)[problems[i]] == multiset(problems)[problems[i]]
  {
    Filter(problems, (p: Problem) => Matches(p, term, difficulty, status))
  }

  /** The initial filter state (empty search, both selects on "all") shows
      the whole list. */
  lemma InitialFilterShowsAll(problems: seq<Problem>)
    ensures FilterProblems(problems, "", AnyValue, AnyValue) == problems
  {
  }

  /** Selecting a difficulty keeps only problems of that difficulty (for
      "Hard", only `Hard` problems), and never lengthens the list. */
  lemma DifficultyFilterSelects(problems: seq<Problem>, term: string, d: Difficulty, status: string)
    ensures forall k :: 0 <= k < |FilterProblems(problems, term, DifficultyName(d), status)| ==>
              FilterProblems(problems, term, DifficultyName(d), status)[k].difficulty == d
    ensures |FilterProblems(problems, term, DifficultyName(d), status)| <= |problems|
  {
  }

  /** The case of the search term does not matter. */
  lemma SearchIgnoresCase(problems: seq<Problem>, term: string, difficulty: string, status: string)
    ensures FilterProblems(problems, ToLower(term), difficulty, status) ==
            FilterProblems(problems, term, difficulty, status)
  {
    ToLowerIdempotent(term);
    FilterCongruent(problems,
      (p: Problem) => Matches(p, ToLower(term), difficulty, status),
      (p: Problem) => Matches(p, term, difficulty, status));
  }

  // ---------------------------------------------------------------------
  // Adding and updating

  /** The problem `addProblem` builds: the form's fields, the generated id
      and today's date. */
  function NewProblem(draft: ProblemDraft, id: string, today: string): (p: Problem)
    ensures p.id == id && p.dateAdded == today
    ensures p.title == draft.title && p.difficulty == draft.difficulty && p.topic == draft.topic
    ensures p.status == draft.status && p.notes == draft.notes
  {
    Problem(id, draft.title, draft.difficulty, draft.topic, draft.status, draft.notes, today)
  }

  /** A fresh id keeps the ids of the list unique. */
  lemma AddKeepsIdsUnique(problems: seq<Problem>, p: Problem)
    requires UniqueIds(problems) && IsFreshId(problems, p.id)
    ensures UniqueIds(problems + [p])
  {
  }

  /** `updateProblemStatus`: `problems.map((p) => (p.id === id ? { ...p, status } : p))`.
      Every record with that id gets the new status and keeps its other
      fields; every other record is kept; unique ids stay unique. */
  function UpdateStatus(problems: seq<Problem>, id: string, status: Status): (r: seq<Problem>)
    ensures |r| == |problems|
    ensures forall i :: 0 <= i < |problems| && problems[i].id == id ==>
              r[i].status == status && r[i] == problems[i].(status := status)
    ensures forall i :: 0 <= i < |problems| && problems[i].id != id ==> r[i] == problems[i]
    ensures UniqueIds(problems) ==> UniqueIds(r)
  {
    seq(|problems|, i requires 0 <= i < |problems| =>
      if problems[i].id == id then problems[i].(status := status) else problems[i])
  }

  /** An id that no problem has changes nothing. */
  lemma UpdateStatusUnknownId(problems: seq<Problem>, id: string, status: Status)
    requires IsFreshId(problems, id)
    ensures UpdateStatus(problems, id, status) == problems
  {
  }

  /** Setting the same status twice is setting it once. */
  lemma UpdateStatusIdempotent(problems: seq<Problem>, id: string, status: Status)
    ensures UpdateStatus(UpdateStatus(problems, id, status), id, status) == UpdateStatus(problems, id, status)
  {
  }

  /** With unique ids, the update touches exactly the record with that id. */
  lemma UpdateStatusTargetsOne(problems: seq<Problem>, k: nat, status: Status)
    requires UniqueIds(problems) && k < |problems|
    ensures UpdateStatus(problems, problems[k].id, status) == problems[k := problems[k].(status := status)]
  {
  }

  // ---------------------------------------------------------------------
  // The component

  /** The state of `LeetCodeTracker`: the list, the three filter controls
      and the add-problem form. */
  class LeetCodeTracker {
    var problems: seq<Problem>
    var filterDifficulty: string
    var filterStatus: string
    var searchTerm: string
    var newProblem: ProblemDraft

    ghost predicate Valid()
      reads this
    {
      UniqueIds(problems)
    }

    /** `filteredProblems` for the current state: problems of the list that
        pass the current search and both selects, and every such problem. */
    function FilteredProblems(): (r: seq<Problem>)
      reads this
      ensures |r| <= |problems|
      ensures forall k :: 0 <= k < |r| ==> r[k] in problems && Matches(r[k], searchTerm, filterDifficulty, filterStatus)
      ensures forall i :: 0 <= i < |problems| && Matches(problems[i], searchTerm, filterDifficulty, filterStatus) ==>
                multiset(r)[problems[i]] == multiset(problems)[problems[i]]
    {
      FilterProblems(problems, searchTerm, filterDifficulty, filterStatus)
    }

    constructor ()
      ensures Valid()
      ensures problems == SeedProblems() && newProblem == BlankDraft
      ensures filterDifficulty == AnyValue && filterStatus == AnyValue && searchTerm == ""
    {
      problems := SeedProblems();
      filterDifficulty := AnyValue;
      filterStatus := AnyValue;
      searchTerm := "";
      newProblem := BlankDraft;
    }

    /** The search box. */
    method SetSearchTerm(term: string)
      requires Valid()
      modifies this`searchTerm
      ensures Valid() && searchTerm == term
    {
      searchTerm := term;
    }

    /** The difficulty select. */
    method SetFilterDifficulty(value: string)
      requires Valid()
      modifies this`filterDifficulty
      ensures Valid() && filterDifficulty == value
    {
      filterDifficulty := value;
    }

    /** The status select. */
    method SetFilterStatus(value: string)
      requires Valid()
      modifies this`filterStatus
      ensures Valid() && filterStatus == value
    {
      filterStatus := value;
    }

    /** The form's change handlers: they replace the draft and nothing else. */
    method EditNewProblem(draft: ProblemDraft)
      requires Valid()
      modifies this`newProblem
      ensures Valid() && newProblem == draft
    {
      newProblem := draft;
    }

    /** `addProblem`: rejected (no change) when the title is blank after
        trimming; otherwise the new problem is appended and the form reset. */
    method AddProblem(id: string, today: string)
      requires Valid() && IsFreshId(problems, id)
      modifies this`problems, this`newProblem
      ensures Valid()
      ensures Trim(old(newProblem).title) != "" ==>
                problems == old(problems) + [NewProblem(old(newProblem), id, today)] &&
                newProblem == BlankDraft
      ensures Trim(old(newProblem).title) == "" ==>
                problems == old(problems) && newProblem == old(newProblem)
    {
      if Trim(newProblem.title) != "" {
        var problem := NewProblem(newProblem, id, today);
        AddKeepsIdsUnique(problems, problem);
        problems := problems + [problem];
        newProblem := BlankDraft;
      }
    }

    /** The "Attempted" and "Solved" buttons of each listed problem. */
    method UpdateProblemStatus(id: string, status: Status)
      requires Valid()
      modifies this`problems
      ensures Valid()
      ensures problems == UpdateStatus(old(problems), id, status)
    {
      problems := UpdateStatus(problems, id, status);
    }
  }
}
