/** `ToRPN` (rpn.go lines 73-181) as the Go code runs it: one pass over the
    runes of the expression that updates its local variables and the shared
    operator stack in place. Its result and the stack it leaves behind are
    exactly those of `ConvertSpec.Convert`, started from the stack contents
    the previous calls left. */
module Converter {
  import opened Tokens
  import opened Results
  import opened ConvertSpec
  import opened OpStack

  method ToRpn(ops: OperatorStack, expression: string)
    returns (rpnText: string, wrongAt: int, parseErr: Option<ConvError>)
    requires ops.Valid()
    modifies ops, ops.stack
    ensures ops.Valid() && ops.stack == old(ops.stack)
    ensures var o := Convert(expression, old(ops.Contents()));
      rpnText == o.rpnText && wrongAt == o.wrongAt && parseErr == o.err && ops.Contents() == o.stack
  {
    ghost var leftover := ops.Contents();
    var pointCount: nat := 0;
    var prevRune: char := NoRune;
    var openCount: nat := 0;
    wrongAt := 0;
    rpnText := "";

    var pos := 0;
    ghost var cur := Start(leftover);
    while pos < |expression|
      invariant ops.Valid() && ops.stack == old(ops.stack)
      invariant pos <= |expression| && wrongAt >= 0
      invariant cur == Scan(rpnText, wrongAt, prevRune, pointCount, openCount, ops.Contents())
      invariant Sound(cur)
      invariant Run(expression, pos, cur) == Convert(expression, leftover)
    {
      var r := expression[pos];
      var runeSize := Utf8Size(r);
      ghost var st := cur;
      var err;
      rpnText, prevRune, pointCount, openCount, err :=
        ScanRune(ops, r, rpnText, wrongAt, prevRune, pointCount, openCount);
      if err.Some? {
        return "", wrongAt, err;
      }
      ghost var next := Scan(rpnText, wrongAt + runeSize, prevRune, pointCount, openCount, ops.Contents());
      assert StepRune(st, r) == Continue(next);
      assert Run(expression, pos, st) == Run(expression, pos + 1, next);
      wrongAt := wrongAt + runeSize;
      pos := pos + 1;
      cur := next;
    }

    if openCount > 0 {
      return "", wrongAt, Some(MissingClose);
    }

    rpnText := EmitAll(ops, rpnText);
    return rpnText, -1, None;
  }

  /** The `switch` of lines 90-166 on one rune `r`: its checks, its stack
      operations and its updates of the local variables. An error is
      returned in `err`; the caller then returns it with an empty text. */
  method ScanRune(ops: OperatorStack, r: char, rpnText: string, wrongAt: nat, prevRune: char,
                  pointCount: nat, openCount: nat)
    returns (text: string, prev: char, points: nat, open: nat, err: Option<ConvError>)
    requires ops.Valid()
    requires Sound(Scan(rpnText, wrongAt, prevRune, pointCount, openCount, ops.Contents()))
    modifies ops, ops.stack
    ensures ops.Valid() && ops.stack == old(ops.stack)
    ensures match StepRune(Scan(rpnText, wrongAt, prevRune, pointCount, openCount, old(ops.Contents())), r)
      case Stop(o) => err == o.err && ops.Contents() == o.stack
      case Continue(n) => err.None? && n == Advance(Scan(text, wrongAt, prev, points, open, ops.Contents()), r)
  {
    ghost var st := Scan(rpnText, wrongAt, prevRune, pointCount, openCount, ops.Contents());
    text, prev, points, open, err := rpnText, prevRune, pointCount, openCount, None;
    if r == '(' {
      text, prev, points, open, err := ScanOpen(ops, rpnText, wrongAt, prevRune, pointCount, openCount);

    } else if r == ')' {
      text, prev, points, open, err := ScanClose(ops, rpnText, wrongAt, prevRune, pointCount, openCount);

    } else if IsOper(r) {
      text, prev, points, open, err := ScanOperator(ops, r, rpnText, wrongAt, prevRune, pointCount, openCount);

    } else if r == '.' {
      if prevRune == ')' {
        return "", prev, points, open, Some(NumberAfterClose);
      }
      if pointCount > 0 {
        return "", prev, points, open, Some(TooManyPoints);
      }
      text := text + [r];
      prev := r;
      points := points + 1;
      assert OnPoint(st) == Continue(Advance(Scan(text, wrongAt, prev, points, open, ops.Contents()), r));

    } else {
      if IsDigit(r) {
        if prevRune == ')' {
          return "", prev, points, open, Some(NumberAfterClose);
        }
        text := text + [r];
        prev := r;
        assert OnDigit(st, r) == Continue(Advance(Scan(text, wrongAt, prev, points, open, ops.Contents()), r));
      } else {
        return "", prev, points, open, Some(WrongSymbol(r));
      }
    }
  }

  /** Lines 91-102: `case '('`. */
  method ScanOpen(ops: OperatorStack, rpnText: string, wrongAt: nat, prevRune: char,
                  pointCount: nat, openCount: nat)
    returns (text: string, prev: char, points: nat, open: nat, err: Option<ConvError>)
    requires ops.Valid()
    requires Sound(Scan(rpnText, wrongAt, prevRune, pointCount, openCount, ops.Contents()))
    modifies ops, ops.stack
    ensures ops.Valid() && ops.stack == old(ops.stack)
    ensures match OnOpen(Scan(rpnText, wrongAt, prevRune, pointCount, openCount, old(ops.Contents())))
      case Stop(o) => err == o.err && ops.Contents() == o.stack
      case Continue(n) => err.None? && n == Advance(Scan(text, wrongAt, prev, points, open, ops.Contents()), '(')
  {
    text, prev, points, open, err := rpnText, prevRune, pointCount, openCount, None;
    if prevRune != NoRune && prevRune != '(' && !IsOper(prevRune) {
      return "", prev, points, open, Some(OpenParenMisplaced(prevRune));
    }
    if ops.IsFull() {
      return "", prev, points, open, Some(ComplexExpression);
    }
    ops.Push('(');
    prev := '(';
    open := open + 1;
  }

  /** Lines 104-120: `case ')'`. */
  method ScanClose(ops: OperatorStack, rpnText: string, wrongAt: nat, prevRune: char,
                   pointCount: nat, openCount: nat)
    returns (text: string, prev: char, points: nat, open: nat, err: Option<ConvError>)
    requires ops.Valid()
    requires Sound(Scan(rpnText, wrongAt, prevRune, pointCount, openCount, ops.Contents()))
    modifies ops
    ensures ops.Valid() && ops.stack == old(ops.stack)
    ensures match OnClose(Scan(rpnText, wrongAt, prevRune, pointCount, openCount, old(ops.Contents())))
      case Stop(o) => err == o.err && ops.Contents() == o.stack
      case Continue(n) => err.None? && n == Advance(Scan(text, wrongAt, prev, points, open, ops.Contents()), ')')
  {
    text, prev, points, open, err := rpnText, prevRune, pointCount, openCount, None;
    if prevRune != ')' && !IsDigit(prevRune) {
      return "", prev, points, open, Some(CloseParenMisplaced(prevRune));
    }
    if openCount == 0 {
      return "", prev, points, open, Some(MissingOpen);
    }
    ghost var before := ops.Contents();
    text := EmitUntilOpen(ops, text);
    ghost var p := PopUntilOpen(before, rpnText);
    assert ops.Contents() == p.stack && text == p.rpnText;
    ops.Pop();
    assert ops.Contents() == p.stack[..|p.stack| - 1];
    prev := ')';
    open := open - 1;
    points := 0;
  }

  /** Lines 122-142: `case '+', '-', '*', '/', '%', '^'`. */
  method ScanOperator(ops: OperatorStack, r: char, rpnText: string, wrongAt: nat, prevRune: char,
                      pointCount: nat, openCount: nat)
    returns (text: string, prev: char, points: nat, open: nat, err: Option<ConvError>)
    requires ops.Valid() && IsOper(r)
    requires Sound(Scan(rpnText, wrongAt, prevRune, pointCount, openCount, ops.Contents()))
    modifies ops, ops.stack
    ensures ops.Valid() && ops.stack == old(ops.stack)
    ensures match OnOperator(Scan(rpnText, wrongAt, prevRune, pointCount, openCount, old(ops.Contents())), r)
      case Stop(o) => err == o.err && ops.Contents() == o.stack
      case Continue(n) => err.None? && n == Advance(Scan(text, wrongAt, prev, points, open, ops.Contents()), r)
  {
    text, prev, points, open, err := rpnText, prevRune, pointCount, openCount, None;
    if prevRune != ')' && !IsDigit(prevRune) {
      return "", prev, points, open, Some(OperatorMisplaced(prevRune));
    }
    text := text + " ";
    text := EmitHigher(ops, r, text);
    if ops.IsFull() {
      return "", prev, points, open, Some(ComplexExpression);
    }
    ops.Push(r);
    prev := r;
    points := 0;
  }

  /** Lines 113-116: `for head() != '(' { rpnText += string(head()); pop() }`. */
  method EmitUntilOpen(ops: OperatorStack, rpnText: string) returns (text: string)
    requires ops.Valid() && Count(ops.Contents(), '(') > 0
    modifies ops
    ensures ops.Valid() && ops.stack == old(ops.stack)
    ensures Popped(ops.Contents(), text) == PopUntilOpen(old(ops.Contents()), rpnText)
  {
    text := rpnText;
    while ops.Head() != '('
      invariant ops.Valid() && ops.stack == old(ops.stack)
      invariant Count(ops.Contents(), '(') > 0
      invariant PopUntilOpen(ops.Contents(), text) == PopUntilOpen(old(ops.Contents()), rpnText)
      decreases ops.stackPtr
    {
      text := text + [ops.Head()];
      ops.Pop();
    }
  }

  /** Lines 131-136: pop and emit while the top satisfies the pop condition
      for the scanned operator `r`. */
  method EmitHigher(ops: OperatorStack, r: char, rpnText: string) returns (text: string)
    requires ops.Valid()
    modifies ops
    ensures ops.Valid() && ops.stack == old(ops.stack)
    ensures Popped(ops.Contents(), text) == PopHigher(r, old(ops.Contents()), rpnText)
  {
    text := rpnText;
    while ops.NotEmpty() &&
          ((LeftAssoc(r) && Priority(ops.Head()) >= Priority(r)) ||
           (RightAssoc(r) && Priority(ops.Head()) > Priority(r)))
      invariant ops.Valid() && ops.stack == old(ops.stack)
      invariant PopHigher(r, ops.Contents(), text) == PopHigher(r, old(ops.Contents()), rpnText)
      decreases ops.stackPtr
    {
      text := text + [ops.Head()];
      ops.Pop();
    }
  }

  /** Lines 175-178: pop and emit every entry. */
  method EmitAll(ops: OperatorStack, rpnText: string) returns (text: string)
    requires ops.Valid()
    modifies ops
    ensures ops.Valid() && ops.stack == old(ops.stack)
    ensures ops.Contents() == [] && text == Drain(old(ops.Contents()), rpnText)
  {
    text := rpnText;
    while ops.NotEmpty()
      invariant ops.Valid() && ops.stack == old(ops.stack)
      invariant Drain(ops.Contents(), text) == Drain(old(ops.Contents()), rpnText)
      decreases ops.stackPtr
    {
      text := text + [ops.Head()];
      ops.Pop();
    }
  }
}
