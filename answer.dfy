/**
 * The answer check inside ask (main.go): the typed line is compared with the
 * expected romaji after lower-casing both. Only the quit test trims the
 * line; the comparison itself does not. Reading the line is I/O and is not
 * part of this module: the typed text is a parameter.
 */
module Answer {
  import opened Runes

  /** What ask reports: (true, nil), (false, nil) or (false, errQuit). */
  datatype Outcome = Correct | Incorrect | Quit

  /** The trimmed, lower-cased line is "quit" or "q". */
  predicate IsQuitCommand(actual: string) {
    var command := ToLower(TrimSpace(actual));
    command == "quit" || command == "q"
  }

  function Ask(actual: string, expected: string): (r: Outcome)
    ensures r == Quit <==> IsQuitCommand(actual)
    ensures r == Correct <==> !IsQuitCommand(actual) && ToLower(actual) == ToLower(expected)
  {
    if IsQuitCommand(actual) then Quit
    else if ToLower(actual) == ToLower(expected) then Correct
    else Incorrect
  }

  /**
   * The outcome depends on the two texts only up to ASCII case: trimming and
   * lower-casing commute, so even the quit test sees only the lowered line.
   */
  lemma AskIgnoresCase(a1: string, a2: string, e1: string, e2: string)
    requires ToLower(a1) == ToLower(a2) && ToLower(e1) == ToLower(e2)
    ensures Ask(a1, e1) == Ask(a2, e2)
  {
    LowerTrimSpace(a1);
    LowerTrimSpace(a2);
  }

  /** Blanks around a quit command are ignored. */
  lemma PaddedQuitQuits()
    ensures Ask(" Q\n", "ka") == Quit
  {
    assert " Q\n"[1..] == "Q\n";
    assert TrimLeading(" Q\n") == "Q\n";
    assert "Q\n"[..1] == "Q";
    assert TrimTrailing("Q\n") == "Q";
    assert ToLower("Q") == "q";
  }

  /** The comparison ignores case. */
  lemma UpperCaseAnswerCorrect()
    ensures Ask("KA", "ka") == Correct
  {
    assert TrimLeading("KA") == "KA";
    assert TrimTrailing("KA") == "KA";
    assert ToLower("KA") == "ka";
    assert ToLower("ka") == "ka";
  }

  /** The comparison does not trim: a trailing blank makes the answer wrong. */
  lemma PaddedAnswerIncorrect()
    ensures Ask("ka ", "ka") == Incorrect
  {
    assert TrimLeading("ka ") == "ka ";
    assert "ka "[..2] == "ka";
    assert TrimTrailing("ka ") == "ka";
    assert ToLower("ka") == "ka";
    assert |ToLower("ka ")| != |ToLower("ka")|;
  }
}
