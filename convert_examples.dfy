/** Worked conversions: the RPN text and the errors `ToRPN` (rpn.go lines
    73-181) produces for a few expressions, and how a failed call leaves
    entries behind for the next one. */
module ConvertExamples {
  import opened Results
  import opened ConvertSpec

  /** A second point in one number. */
  lemma TwoPoints()
    ensures Convert("1.2.3", []) == Outcome("", 3, Some(TooManyPoints), [])
  {
  }

  /** The `+` left by `3+4)` comes out after the next call's own text. */
  lemma LeftoverAfterFailure()
    ensures Convert("5", ['+']) == Outcome("5+", -1, None, [])
  {
  }

  /** A number alone is its own RPN text. */
  lemma DigitsAlone()
    ensures Convert("5", []) == Outcome("5", -1, None, [])
  {
  }
}
