/**
 * `askQuestion`: the operator's yes/no gate. The readline interface is a
 * scripted sequence of answer lines; each question consumes exactly one line,
 * even in automatic mode, because the answer callback runs only once a line
 * has been read.
 */
module Gate {
  /** The source's fixed setting of the automatic-mode flag. */
  const AUTOMATIC: bool := false

  /** The answer callback: yes in automatic mode, on an empty line, or on exactly "y". */
  predicate Confirm(automatic: bool, answer: string) {
    automatic || answer == "" || answer == "y"
  }

  /** Without automatic mode, only "" and "y" confirm; every other line declines. */
  lemma ConfirmAnswers(automatic: bool, answer: string)
    ensures automatic ==> Confirm(automatic, answer)
    ensures !automatic ==> (Confirm(automatic, answer) <==> answer == "" || answer == "y")
    ensures !Confirm(false, "Y") && !Confirm(false, "yes") && !Confirm(false, "n") && !Confirm(false, " ")
  {
  }
}
