# rpn.go in Dafny

A model of `rpn.go`, a small infix calculator in Go, with proofs about that model. It works in two phases:

- `ToRPN` is a validating shunting-yard converter. It turns an infix expression over `+ - * / % ^`, parentheses, digits and decimal points into a reverse-Polish text, or reports the byte offset of the first offending character.
- `calculateRPN` evaluates that text on an operand stack of 32 values.

`Calculate` chains the two phases.

## Files

- `tokens.dfy`: character classes and the stack capacities. Also `priority`, the UTF-8 size of a rune (for `wrongAt`), and counting and reversal helpers.
- `opstack.dfy`: the package-level operator stack as a class `OperatorStack`. Its `stack` is an `array<char>` of 256 entries, and `stackPtr` is -1 when the stack is empty. One object is passed to every call, so the stack outlives each conversion as the Go globals do.
- `convert_spec.dfy`: what `ToRPN` computes, as pure functions.
  - `StepRune` is one pass of the `switch`, built from `OnOpen`, `OnClose`, `OnOperator`, `OnPoint` and `OnDigit`.
  - `Run` is the loop, `Finish` is the end of the call, and `Convert(expression, leftover)` is the whole call.
  - `leftover` is what earlier calls left on the stack.
- `convert.dfy`: `ToRPN` as the Go code runs it, as methods that update the local variables and the `OperatorStack` in place. It is proved to return exactly `Convert`'s result and to leave exactly `Convert`'s stack.
- `grammar.dfy`: a reference grammar defined over the text already read rather than through the converter's counters. It uses `Violation`, `WellFormed`, `Depth` and `TrailingPoints`. Proved about it:
  - `ToRPN` accepts exactly the balanced well-formed expressions, up to stack overflow.
  - It reports the first offending rune at its byte offset.
- `convert_shape.dfy`: what a successful RPN text is made of, and what it inherits from an earlier call's leftovers.
- `convert_operators.dfy`: whole families of expressions, such as "number, operator, number" and "number, operator, number, operator, number", run through `Convert`.
- `convert_examples.dfy`: a few worked conversions.
- `evaluator.dfy`: `get_num` and `calculateRPN` as methods, proved against the function `EvalFrom`. Also a postfix expression tree whose text evaluates to the tree's value.
- `facade.dfy`: `Calculate`, and how one failed call spoils the next.

## Modelling decisions

- **Values are abstract.** `Arith<V>` supplies three things:
  - `zero`, the Go zero value;
  - `parse`, which stands for `strconv.ParseFloat` of the captured digits and points;
  - `apply(op, lhs, rhs)`, the arithmetic.

  So the proofs are about the stack discipline, not about floating point.
- **Runes and bytes.** The expression is a `seq<char>`. `wrongAt` adds `Utf8Size` of each accepted rune, which is the size `ReadRune` reports for valid UTF-8.
- **Initial `prevRune`.** `prevRune` starts as the zero rune (`NoRune`), as in Go.
- **Byte truncation.** `push` stores `byte(op)`; this is modelled by `ByteOf`. Only `(` and the six operators are ever pushed, so the truncation never changes them.
- **The pop condition (lines 131-133).**
  - It tests the associativity of the scanned operator `r`. The model follows the code.
  - Testing the top entry's associativity in both clauses, as textbook statements of the algorithm do, pops exactly the same entries, because each priority level holds operators of one associativity only (`ShouldPopEitherSide`).
  - What this does to the output order is proved for two operators between three numbers (`ConvertTwoOperators`, `CalculateTwoOperators`): `8-3-2` is `(8-3)-2`, `2^3^2` is `2^(3^2)` and `3+4*2` is `3+(4*2)`.
- **Persistent stack.**
  - Every error return inside the loop, and the missing-`)` return, leaves the operator stack as it is.
  - The next call's final drain emits those entries after its own text (`ConvertLeaksLeftover`, `FailedCallSpoilsNext`).
- **`Calculate` drops evaluator errors.** It discards the evaluator's error (line 275), so an evaluation failure looks like success with result 0. The model keeps this behaviour.

## Model

| member | source | states |
|---|---|---|
| Tokens.LeftAssoc | rpn.go:41-43 | a left-associative rune is not right-associative, and is no digit, point or parenthesis |
| Tokens.RightAssoc | rpn.go:45-47 | a right-associative rune is no digit, point or parenthesis |
| Tokens.IsDigit | rpn.go:54-56 | a digit is no point or parenthesis, and takes one byte |
| Tokens.IsOper | rpn.go:41-52 | an operator is exactly a left- or a right-associative rune, never both |
| Tokens.Priority | rpn.go:58-71 | -1 exactly for non-operators (so for `(`); operators get 1..3, and 3 exactly for `%` and `^` |
| Tokens.Utf8Size | rpn.go:168 | a rune adds 1 to 4 bytes to `wrongAt`, and 1 exactly for ASCII |
| Tokens.ByteLen | rpn.go:168 | the byte length of a text lies between its rune count and four times it |
| Tokens.ByteLenPrefix | rpn.go:168 | the byte offset of any rune is at most the byte length of the text |
| OpStack.ByteOf | rpn.go:22 | the stored byte is below 256 and equals the rune for runes below 256 |
| OpStack.OperatorStack.constructor | rpn.go:15-18 | program start: the stack is empty and within capacity |
| OpStack.OperatorStack.Push | rpn.go:20-23 | on a stack that is not full, the entry becomes the new top and nothing else changes |
| OpStack.OperatorStack.Pop | rpn.go:25-27 | on a non-empty stack, exactly the top entry is removed |
| OpStack.OperatorStack.Head | rpn.go:29-31 | the result is the top entry |
| OpStack.OperatorStack.IsFull | rpn.go:33-35 | true exactly when 256 entries are held |
| OpStack.OperatorStack.NotEmpty | rpn.go:37-39 | true exactly when some entry is held |
| ConvertSpec.ShouldPop | rpn.go:131-133 | only an operator pops and only an operator is popped; a higher-priority top always goes, a lower one never, an equal one exactly when the scanned operator is left-associative |
| ConvertSpec.ShouldPopEitherSide | rpn.go:131-133 | testing the scanned operator's associativity pops exactly what testing the top entry's would |
| ConvertSpec.PopUntilOpen | rpn.go:113-117 | the stack is cut just above its topmost `(`; the cut part holds no `(` and is emitted top first; no `(` is lost |
| ConvertSpec.PopHigher | rpn.go:129-136 | the result is a prefix of the stack, and the cut-off part is appended to the text top first |
| ConvertSpec.PopHigherCut | rpn.go:131-136 | every popped entry met the pop condition |
| ConvertSpec.PopHigherStops | rpn.go:131-133 | the loop ends only on an empty stack or a top entry that fails the condition |
| ConvertSpec.PopHigherKeepsOpen | rpn.go:131-136 | the loop never pops a `(`, so the count of `(` on the stack is unchanged |
| ConvertSpec.PopHigherRightAssoc | rpn.go:131-133 | scanning `%` or `^` pops nothing |
| ConvertSpec.Drain | rpn.go:175-178 | the final loop appends the whole stack to the text, top first |
| ConvertSpec.OnOpen | rpn.go:91-102 | a `(` either stops the call with an empty text at the current offset or keeps the stack within capacity and `(` counted |
| ConvertSpec.OnClose | rpn.go:104-120 | a `)` either stops the call with an empty text at the current offset or keeps every invariant of the scan |
| ConvertSpec.OnOperator | rpn.go:122-142 | an operator either stops the call with an empty text at the current offset or keeps every invariant of the scan |
| ConvertSpec.OnPoint | rpn.go:144-153 | a `.` either stops the call with an empty text at the current offset or keeps every invariant of the scan |
| ConvertSpec.OnDigit | rpn.go:155-165 | a digit either stops the call with an empty text at the current offset or keeps every invariant of the scan |
| ConvertSpec.StepRune | rpn.go:90-166 | one pass of the `switch`: the same two outcomes for any rune |
| ConvertSpec.Finish | rpn.go:171-180 | a `(` still open fails with "missing close" at the current offset and keeps the stack; otherwise the text is followed by the stack top first, and the stack is emptied |
| ConvertSpec.Run | rpn.go:84-180 | error if and only if `wrongAt` is not -1; on error the text is empty and the offset is at least the current one; on success the stack is empty; the stack never exceeds 256 entries |
| ConvertSpec.Convert | rpn.go:73-181 | -1 exactly when no error is reported; an error comes with an empty text and an offset of at least 0; success empties the stack; the stack stays within 256 entries; an empty expression returns the leftover stack top first |
| Converter.ToRpn | rpn.go:73-181 | the in-place scan returns the text, offset and error of `Convert`, started from the stack left by earlier calls, and leaves exactly `Convert`'s stack |
| Converter.ScanRune | rpn.go:90-166 | one pass of the `switch` on the object matches `StepRune` |
| Converter.ScanOpen | rpn.go:91-102 | the `(` case on the object matches `OnOpen` |
| Converter.ScanClose | rpn.go:104-120 | the `)` case on the object matches `OnClose`, and its pop loop never underflows |
| Converter.ScanOperator | rpn.go:122-142 | the operator case on the object matches `OnOperator` |
| Converter.EmitUntilOpen | rpn.go:113-117 | the loop on the object computes `PopUntilOpen` |
| Converter.EmitHigher | rpn.go:131-136 | the loop on the object computes `PopHigher` |
| Converter.EmitAll | rpn.go:175-178 | the loop on the object computes `Drain` and empties the stack |
| Grammar.StepAgrees | rpn.go:90-168 | with counters that describe the text read, one step accepts exactly the runes the grammar allows there, and otherwise reports that rune's rule, or a full stack, at its byte offset |
| Grammar.RunAgrees | rpn.go:84-172 | from any matching state: success implies a balanced text, a missing `)` is reported at the byte length, and any other error is a first-failure report |
| Grammar.ConvertAcceptsBalanced | rpn.go:84-180 | success implies a balanced well-formed text; a balanced well-formed text fails only with a stack overflow |
| Grammar.ConvertReportsFirstError | rpn.go:81-172 | on error the text is empty and 0 <= wrongAt <= byte length; a missing `)` reports the byte length; other errors name the first rune that breaks a rule, at its byte offset |
| Grammar.AcceptedPlacement | rpn.go:91-165 | in an accepted text: only the alphabet occurs; `(` is first or follows `(` or an operator; `)` and operators follow `)` or a digit; no digit or point follows `)` |
| Grammar.AcceptedPointsAndDepth | rpn.go:102-153 | in an accepted text, two points are always separated by a rune other than a digit or point, and no prefix has more `)` than `(` |
| Grammar.DepthNonNegative | rpn.go:110-119 | the open-parenthesis count of every prefix of an accepted text is non-negative |
| Shape.StepShape | rpn.go:90-166 | every accepted rune keeps the text made of digits and points in order, one space per operator, no `(`, and keeps the `(` on the stack equal to the leftover ones plus this call's open ones |
| Shape.ConvertShape | rpn.go:129-178 | on success: the digits and points of the text are those of the expression, in order; there is one space per operator; the `(` are exactly the leftover ones; each operator occurs as often as in the expression and the leftover stack together |
| Shape.ConvertLeaksLeftover | rpn.go:171-180 | a text of digits alone converts to itself followed by the leftover stack, top first, `(` included |
| Operators.ScanDigits | rpn.go:155-165 | a run of digits is copied to the text one byte each, and its last digit becomes `prevRune` |
| Operators.ScanOperatorAfterDigit | rpn.go:122-142 | an operator after a digit writes a space, pops, and pushes itself |
| Operators.NumberThenOperator | rpn.go:122-165 | a leading number and operator leave the number and a space in the text and the operator alone on the stack |
| Operators.DigitsThenEnd | rpn.go:155-178 | trailing digits with no `(` open are copied, then the stack is drained behind them |
| Operators.OperatorThenDigitsToEnd | rpn.go:122-178 | an operator after a digit, then digits to the end: the operator pops, writes its space, and the remaining stack comes out after the digits and the operator |
| Operators.AfterFirstOperator | rpn.go:122-178 | after `a p`, the rest `b q c` leaves `a b ` plus what the pop loop of `q` emits from the stack `[p]`, then `c`, then the remaining stack top first |
| Operators.NumberOperatorNumberOperatorNumber | rpn.go:73-181 | `a p b q c` converts to the result of running the pop loop of `q` on `[p]`, followed by `c` and the remaining stack |
| Operators.PopHigherSingle | rpn.go:131-136 | on a one-entry stack the pop loop pops that entry exactly when the pop condition holds |
| Operators.ConvertTwoOperators | rpn.go:73-181 | `a p b q c` converts to `a b p c q` when `q` pops `p` (`p` binds at least as tightly, strictly when `q` is right-associative) and to `a b c q p` otherwise |
| Operators.ConvertOneOperator | rpn.go:73-181 | number, operator, number converts to "a b" followed by the operator |
| Operators.OperatorAfterOperator | rpn.go:123-127 | an operator right after an operator stops the call at its offset, naming the first operator |
| Operators.ConvertAdjacentOperators | rpn.go:122-127 | two operators in a row fail at the second, and the first stays on the stack |
| Operators.CloseUnopened | rpn.go:110-111 | a `)` with no `(` of this call open stops the call at its offset |
| Operators.ConvertUnopened | rpn.go:104-111 | number, operator, number, `)` fails at the `)` with "missing open", and the operator stays on the stack |
| ConvertExamples.TwoPoints | rpn.go:148-150 | `1.2.3` fails at offset 3 with too many points |
| ConvertExamples.LeftoverAfterFailure | rpn.go:175-178 | `5`, converted on a stack holding `+`, gives `5+` |
| ConvertExamples.DigitsAlone | rpn.go:155-180 | `5` on an empty stack gives `5` |
| Evaluator.RunLength | rpn.go:189-200 | the length of the maximal run of digits and points at the start of a text |
| Evaluator.EvalFrom | rpn.go:215-264 | a lack of operands names an operator of the unread text; with two or more values held and no operator left, evaluation fails |
| Evaluator.Eval | rpn.go:206-265 | an empty text yields the zero value; a lack of operands names an operator of the text |
| Evaluator.GetNum | rpn.go:183-204 | consumes exactly the maximal run of digits and points from the position, leaves the reader on the next rune, and parses the capture |
| Evaluator.CalculateRpn | rpn.go:206-265 | the array-and-counter loop returns `Eval`'s value, or the zero value with `Eval`'s error |
| Evaluator.EvalSkips | rpn.go:221-257 | runes that are neither operators nor digits nor points are skipped |
| Evaluator.ErrorsIgnoreValues | rpn.go:223-261 | whether and how the evaluation fails depends only on the text and the number of values held |
| Evaluator.EvalNumber | rpn.go:248-256 | a run of digits and points pushes its parsed value |
| Evaluator.EvalSpaceAndOperator | rpn.go:222-247 | a space before the second operand is skipped, and once that operand is pushed the operator after it combines the two values on top |
| Evaluator.EvalOperator | rpn.go:222-247 | an operator replaces the top two values with `apply(op, lhs, rhs)`, where `rhs` is the top |
| Evaluator.EvalEmitted | rpn.go:215-258 | the text of a postfix tree pushes exactly the tree's value when the stack has room for its height |
| Evaluator.EvalPostfix | rpn.go:206-265 | `calculateRPN` of a tree's text is the tree's value |
| Facade.Calculate | rpn.go:267-278 | a conversion error is passed on with the zero result; otherwise the result is `Eval`'s value, or zero when evaluation fails, and no error is reported |
| Facade.CalculateOneOperator | rpn.go:267-278 | number, operator, number converts without error and evaluates to the operator applied to the two parsed numbers |
| Facade.CalculateTwoOperators | rpn.go:267-278 | `a p b q c` converts without error and evaluates to `(a p b) q c` when `q` pops `p`, and to `a p (b q c)` otherwise |
| Facade.EvalTwoNumbers | rpn.go:215-258 | two numbers, each followed by a space, push their two parsed values |
| Facade.EvalPoppedFirst | rpn.go:215-264 | the text `a b p c q` evaluates to `(a p b) q c` |
| Facade.EvalKeptFirst | rpn.go:215-264 | the text `a b c q p` evaluates to `a p (b q c)` |
| Facade.FailedCallSpoilsNext | rpn.go:15-18 | after `3+4)` fails, `5` on the same stack yields zero and no error; on a fresh stack it yields its parsed value |
| Facade.LeftoverFailsEvaluation | rpn.go:222-226 | `5+` fails for lack of operands at the `+` |
| Facade.NumberEvaluates | rpn.go:260-264 | a single number evaluates to its parsed value |

## Left out

- Floating-point arithmetic (lines 230-246): `+ - * /`, `math.Pow` and `math.Mod`, with their infinities and NaNs, are the abstract `apply`.
- `strconv.ParseFloat` (line 202) is the abstract `parse`, including its fallback to 0 on a malformed capture.
- UTF-8 decoding by `strings.Reader`: the expression is already a sequence of runes. Invalid byte sequences, which `ReadRune` decodes as U+FFFD of size 1, are not modelled.
- Error message text (`errors.New`, `strconv.QuoteRune`) is a datatype naming the error kind and the offending rune.
- Concurrent calls sharing the global stack: the model is sequential.
- Grammar.ConvertAcceptsBalanced: states that a balanced text fails only with "Complex expression". It does not say which balanced texts are deep enough to overflow.
- Operators.ConvertTwoOperators: the order of operators in the RPN text is proved for one and for two operators between numbers, without parentheses (`ConvertOneOperator`, `ConvertTwoOperators`). For longer expressions only the counts in `Shape.ConvertShape` are proved, not the full precedence order.
