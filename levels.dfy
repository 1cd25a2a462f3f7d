/** The difficulty scale shared by flashcards and problems
    (`"Easy" | "Medium" | "Hard"` in both records). */
module Levels {

  datatype Difficulty = Easy | Medium | Hard

  /** The string the source stores and compares against a filter value. */
  function DifficultyName(d: Difficulty): string
  {
    match d
    case Easy => "Easy"
    case Medium => "Medium"
    case Hard => "Hard"
  }

  /** Different difficulties have different names, so comparing a name with
      a filter value identifies one difficulty. */
  lemma DifficultyNameInjective(d: Difficulty, e: Difficulty)
    ensures DifficultyName(d) == DifficultyName(e) <==> d == e
  {
    if d != e {
      assert DifficultyName(d)[0] != DifficultyName(e)[0];
    }
  }
}
