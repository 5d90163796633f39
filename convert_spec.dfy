/** The meaning of `ToRPN` (rpn.go lines 73-181) as functions over values: one
    scanner state, one step per rune, and the run over the whole expression.
    The operator stack is a sequence whose last element is the top; the run
    starts from whatever the stack held when the call began. */
module ConvertSpec {
  import opened Tokens
  import opened Results

  /** The errors `ToRPN` can return, one per `errors.New` site. */
  datatype ConvError =
    | OpenParenMisplaced(after: char)   // line 93
    | CloseParenMisplaced(after: char)  // line 106
    | OperatorMisplaced(after: char)    // line 124
    | NumberAfterClose                  // lines 146 and 158
    | TooManyPoints                     // line 149
    | WrongSymbol(symbol: char)         // line 163
    | MissingOpen                       // line 111
    | MissingClose                      // line 172
    | ComplexExpression                 // lines 98 and 138

  /** The local variables of `ToRPN` plus the operator stack. */
  datatype Scan = Scan(
    rpnText: string,
    wrongAt: nat,
    prevRune: char,
    pointCount: nat,
    openCount: nat,
    stack: seq<char>)

  /** What `ToRPN` returns, and the operator stack it leaves behind. */
  datatype Outcome = Outcome(rpnText: string, wrongAt: int, err: Option<ConvError>, stack: seq<char>)

  datatype Step = Continue(next: Scan) | Stop(outcome: Outcome)

  /** What the operator stack and the RPN text are after a pop loop. */
  datatype Popped = Popped(stack: seq<char>, rpnText: string)

  /** What every state of a scan satisfies: the stack is within capacity and
      holds at least as many `(` as the scan has left open. */
  predicate Sound(st: Scan)
  {
    |st.stack| <= OpStackSize && st.openCount <= Count(st.stack, '(')
  }

  function Fail(st: Scan, e: ConvError): (o: Outcome)
  {
    Outcome("", st.wrongAt, Some(e), st.stack)
  }

  /** The pop condition of lines 131-133. It looks at the associativity of
      the SCANNED operator `op`, not at that of the top entry `top`. Only
      an operator pops, and only an operator is popped (never a `(`); a top
      entry of higher priority always goes, one of lower priority never,
      and one of equal priority exactly when `op` is left-associative. */
  predicate ShouldPop(op: char, top: char): (r: bool)
    ensures r ==> IsOper(op) && IsOper(top) && Priority(top) >= Priority(op)
    ensures IsOper(op) && Priority(top) > Priority(op) ==> r
    ensures IsOper(op) && Priority(top) == Priority(op) ==> (r <==> LeftAssoc(op))
  {
    (LeftAssoc(op) && Priority(top) >= Priority(op)) ||
    (RightAssoc(op) && Priority(top) > Priority(op))
  }

  /** Testing the associativity of the top entry instead of the scanned
      operator would pop exactly the same entries: every priority level
      holds operators of one associativity only. */
  lemma ShouldPopEitherSide(op: char, top: char)
    requires IsOper(op)
    ensures ShouldPop(op, top) <==>
      (LeftAssoc(top) && Priority(top) >= Priority(op)) ||
      (RightAssoc(top) && Priority(top) > Priority(op))
  {
  }

  /** Lines 113-116: emit and pop entries until a `(` is on top. The result
      is the stack cut just above its topmost `(`, and the cut-off part is
      emitted top first. */
  function PopUntilOpen(stack: seq<char>, rpnText: string): (r: Popped)
    requires Count(stack, '(') > 0
    ensures |r.stack| <= |stack|
    ensures |r.stack| > 0 && r.stack[|r.stack| - 1] == '('
    ensures r.stack == stack[..|r.stack|]
    ensures '(' !in stack[|r.stack|..]
    ensures Count(r.stack, '(') == Count(stack, '(')
    ensures r.rpnText == rpnText + Reversed(stack[|r.stack|..])
    decreases |stack|
  {
    var top := stack[|stack| - 1];
    if top == '(' then
      assert stack[|stack|..] == [];
      Popped(stack, rpnText)
    else
      var front := stack[..|stack| - 1];
      var r := PopUntilOpen(front, rpnText + [top]);
      assert stack[|r.stack|..] == front[|r.stack|..] + [top];
      ReversedSnoc(front[|r.stack|..], top);
      r
  }

  /** Lines 131-136: emit and pop while the stack is non-empty and its top
      satisfies `ShouldPop`. The result is a prefix of the stack, and the
      part cut off is emitted top first. */
  function PopHigher(op: char, stack: seq<char>, rpnText: string): (r: Popped)
    ensures |r.stack| <= |stack|
    ensures r.stack == stack[..|r.stack|]
    ensures r.rpnText == rpnText + Reversed(stack[|r.stack|..])
    decreases |stack|
  {
    if stack != [] && ShouldPop(op, stack[|stack| - 1]) then
      var top := stack[|stack| - 1];
      var front := stack[..|stack| - 1];
      var r := PopHigher(op, front, rpnText + [top]);
      assert stack[|r.stack|..] == front[|r.stack|..] + [top];
      ReversedSnoc(front[|r.stack|..], top);
      r
    else
      assert stack[|stack|..] == [];
      Popped(stack, rpnText)
  }

  /** Every entry the loop of lines 131-133 pops met the pop condition. */
  lemma {:induction false} PopHigherCut(op: char, stack: seq<char>, rpnText: string)
    ensures var r := PopHigher(op, stack, rpnText);
      forall k :: |r.stack| <= k < |stack| ==> ShouldPop(op, stack[k])
    decreases |stack|
  {
    if stack != [] && ShouldPop(op, stack[|stack| - 1]) {
      var front := stack[..|stack| - 1];
      PopHigherCut(op, front, rpnText + [stack[|stack| - 1]]);
      assert forall k :: 0 <= k < |front| ==> stack[k] == front[k];
    }
  }

  /** The loop of lines 131-133 stops only at an empty stack or at a top
      entry that fails the pop condition. */
  lemma {:induction false} PopHigherStops(op: char, stack: seq<char>, rpnText: string)
    ensures var r := PopHigher(op, stack, rpnText);
      r.stack == [] || !ShouldPop(op, r.stack[|r.stack| - 1])
    decreases |stack|
  {
    if stack != [] && ShouldPop(op, stack[|stack| - 1]) {
      PopHigherStops(op, stack[..|stack| - 1], rpnText + [stack[|stack| - 1]]);
    }
  }

  /** `priority('(')` is -1, so the loop of lines 131-133 never pops a `(`:
      the stack keeps every `(` it had. */
  lemma PopHigherKeepsOpen(op: char, stack: seq<char>, rpnText: string)
    ensures var r := PopHigher(op, stack, rpnText);
      '(' !in stack[|r.stack|..] && Count(r.stack, '(') == Count(stack, '(')
  {
    var r := PopHigher(op, stack, rpnText);
    PopHigherCut(op, stack, rpnText);
    assert !ShouldPop(op, '(');
    assert stack == r.stack + stack[|r.stack|..];
    CountAppend(r.stack, stack[|r.stack|..], '(');
    CountPositive(stack[|r.stack|..], '(');
  }

  /** No priority exceeds 3, so scanning `%` or `^` pops nothing. */
  lemma PopHigherRightAssoc(op: char, stack: seq<char>, rpnText: string)
    requires RightAssoc(op)
    ensures PopHigher(op, stack, rpnText) == Popped(stack, rpnText)
  {
    if stack != [] {
      assert Priority(stack[|stack| - 1]) <= 3;
    }
  }

  /** Lines 175-178: emit and pop every entry, top first. */
  function Drain(stack: seq<char>, rpnText: string): (r: string)
    ensures r == rpnText + Reversed(stack)
    decreases |stack|
  {
    if stack == [] then rpnText
    else
      var top := stack[|stack| - 1];
      ReversedSnoc(stack[..|stack| - 1], top);
      assert stack == stack[..|stack| - 1] + [top];
      Drain(stack[..|stack| - 1], rpnText + [top])
  }

  /** Line 168: a rune that does not end the call adds its byte size. */
  function Advance(st: Scan, r: char): Scan
  {
    st.(wrongAt := st.wrongAt + Utf8Size(r))
  }

  /** What a step that ends the call returns: an error, no text, the
      position reached so far, and a stack within capacity. */
  predicate Halts(st: Scan, o: Outcome)
  {
    o.err.Some? && o.rpnText == "" && o.wrongAt == st.wrongAt && |o.stack| <= OpStackSize
  }

  /** Lines 91-102. */
  function OnOpen(st: Scan): (s: Step)
    requires Sound(st)
    ensures s.Continue? ==> Sound(s.next)
    ensures s.Stop? ==> Halts(st, s.outcome)
  {
    var prev := st.prevRune;
    if prev != NoRune && prev != '(' && !IsOper(prev) then Stop(Fail(st, OpenParenMisplaced(prev)))
    else if |st.stack| >= OpStackSize then Stop(Fail(st, ComplexExpression))
    else
      assert (st.stack + ['('])[..|st.stack|] == st.stack;
      Continue(Advance(st.(stack := st.stack + ['('], prevRune := '(', openCount := st.openCount + 1), '('))
  }

  /** Lines 104-120. */
  function OnClose(st: Scan): (s: Step)
    requires Sound(st)
    ensures s.Continue? ==> Sound(s.next)
    ensures s.Stop? ==> Halts(st, s.outcome)
  {
    var prev := st.prevRune;
    if prev != ')' && !IsDigit(prev) then Stop(Fail(st, CloseParenMisplaced(prev)))
    else if st.openCount == 0 then Stop(Fail(st, MissingOpen))
    else
      var p := PopUntilOpen(st.stack, st.rpnText);
      var rest := p.stack[..|p.stack| - 1];
      Continue(Advance(st.(rpnText := p.rpnText, stack := rest, prevRune := ')',
                           openCount := st.openCount - 1, pointCount := 0), ')'))
  }

  /** Lines 122-142, for an operator `r`. */
  function OnOperator(st: Scan, r: char): (s: Step)
    requires Sound(st) && IsOper(r)
    ensures s.Continue? ==> Sound(s.next)
    ensures s.Stop? ==> Halts(st, s.outcome)
  {
    var prev := st.prevRune;
    if prev != ')' && !IsDigit(prev) then Stop(Fail(st, OperatorMisplaced(prev)))
    else
      var p := PopHigher(r, st.stack, st.rpnText + " ");
      PopHigherKeepsOpen(r, st.stack, st.rpnText + " ");
      if |p.stack| >= OpStackSize then Stop(Fail(st.(stack := p.stack), ComplexExpression))
      else
        assert (p.stack + [r])[..|p.stack|] == p.stack;
        Continue(Advance(st.(rpnText := p.rpnText, stack := p.stack + [r], prevRune := r,
                             pointCount := 0), r))
  }

  /** Lines 144-153. */
  function OnPoint(st: Scan): (s: Step)
    requires Sound(st)
    ensures s.Continue? ==> Sound(s.next)
    ensures s.Stop? ==> Halts(st, s.outcome)
  {
    if st.prevRune == ')' then Stop(Fail(st, NumberAfterClose))
    else if st.pointCount > 0 then Stop(Fail(st, TooManyPoints))
    else Continue(Advance(st.(rpnText := st.rpnText + ['.'], prevRune := '.', pointCount := st.pointCount + 1), '.'))
  }

  /** Lines 155-165, for a digit `r`. */
  function OnDigit(st: Scan, r: char): (s: Step)
    requires Sound(st) && IsDigit(r)
    ensures s.Continue? ==> Sound(s.next)
    ensures s.Stop? ==> Halts(st, s.outcome)
  {
    if st.prevRune == ')' then Stop(Fail(st, NumberAfterClose))
    else Continue(Advance(st.(rpnText := st.rpnText + [r], prevRune := r), r))
  }

  /** One iteration of the loop of lines 84-169 on rune `r`: the `switch`
      of lines 90-166. */
  function StepRune(st: Scan, r: char): (s: Step)
    requires Sound(st)
    ensures s.Continue? ==> Sound(s.next)
    ensures s.Stop? ==> Halts(st, s.outcome)
  {
    if r == '(' then OnOpen(st)
    else if r == ')' then OnClose(st)
    else if IsOper(r) then OnOperator(st, r)
    else if r == '.' then OnPoint(st)
    else if IsDigit(r) then OnDigit(st, r)
    else Stop(Fail(st, WrongSymbol(r)))
  }

  /** Lines 171-180: after the last rune. A `(` still open fails the call
      at the byte length with the stack kept; otherwise the text is
      followed by the whole stack, top first, and the stack is emptied. */
  function Finish(st: Scan): (o: Outcome)
    requires Sound(st)
    ensures o.err.None? <==> st.openCount == 0
    ensures o.err.Some? ==> o == Outcome("", st.wrongAt, Some(MissingClose), st.stack)
    ensures o.err.None? ==> o == Outcome(st.rpnText + Reversed(st.stack), -1, None, [])
  {
    if st.openCount > 0 then Fail(st, MissingClose)
    else Outcome(Drain(st.stack, st.rpnText), -1, None, [])
  }

  /** The loop of lines 84-169 from the `i`-th rune on, then `Finish`.
      Whatever the input, the result is one of: an error with an empty text
      and a non-negative position at or past the current one, or success
      with position -1 and an emptied stack; the stack never exceeds its
      capacity. */
  function Run(s: string, i: nat, st: Scan): (o: Outcome)
    requires i <= |s| && Sound(st)
    ensures o.err.None? <==> o.wrongAt == -1
    ensures o.err.Some? ==> o.rpnText == "" && o.wrongAt >= st.wrongAt
    ensures o.err.None? ==> o.stack == []
    ensures |o.stack| <= OpStackSize
    decreases |s| - i
  {
    if i == |s| then Finish(st)
    else
      match StepRune(st, s[i])
      case Stop(o) => o
      case Continue(next) => Run(s, i + 1, next)
  }

  /** The state at line 84: nothing scanned, the stack as the previous calls left it. */
  function Start(leftover: seq<char>): Scan
  {
    Scan("", 0, NoRune, 0, 0, leftover)
  }

  /** `ToRPN(expression)` when the operator stack holds `leftover`. It
      returns -1 exactly when it reports no error; an error comes with an
      empty text and a non-negative offset; success empties the stack; the
      stack never exceeds its capacity. An empty expression returns the
      leftover entries, top first. */
  function Convert(expression: string, leftover: seq<char>): (o: Outcome)
    requires |leftover| <= OpStackSize
    ensures o.err.None? <==> o.wrongAt == -1
    ensures o.err.Some? ==> o.rpnText == "" && o.wrongAt >= 0
    ensures o.err.None? ==> o.stack == []
    ensures |o.stack| <= OpStackSize
    ensures expression == [] ==> o == Outcome(Reversed(leftover), -1, None, [])
  {
    Run(expression, 0, Start(leftover))
  }
}
