/** `Calculate` (rpn.go lines 267-278): convert, then evaluate. A conversion
    error is passed through with the zero result; an evaluation error is
    dropped, so the caller sees only the zero result and no error. */
module Facade {
  import opened Results
  import opened ConvertSpec
  import opened OpStack
  import opened Evaluator
  import Converter
  import ConvertExamples
  import Operators
  import opened Tokens

  method Calculate<V>(ops: OperatorStack, ar: Arith<V>, expression: string)
    returns (res: V, wrongAt: int, parseErr: Option<ConvError>)
    requires ops.Valid()
    modifies ops, ops.stack
    ensures ops.Valid() && ops.stack == old(ops.stack)
    ensures var o := Convert(expression, old(ops.Contents()));
      ops.Contents() == o.stack && parseErr == o.err && wrongAt == o.wrongAt &&
      res == (if o.err.Some? then ar.zero else Eval(ar, o.rpnText).GetOr(ar.zero))
  {
    var s;
    s, wrongAt, parseErr := Converter.ToRpn(ops, expression);
    if parseErr != None {
      return ar.zero, wrongAt, parseErr;
    }
    var ignored;
    res, ignored := CalculateRpn(ar, s);
    return res, wrongAt, parseErr;
  }

  /** `Calculate` on a number, an operator and a number, from an empty
      stack, yields the operator applied to the two parsed numbers. */
  lemma CalculateOneOperator<V>(ar: Arith<V>, a: string, p: char, b: string)
    requires Operators.Digits(a) && Operators.Digits(b) && IsOper(p)
    ensures Convert(a + [p] + b, []).err == None
    ensures Eval(ar, Convert(a + [p] + b, []).rpnText) == Success(ar.apply(p, ar.parse(a), ar.parse(b)))
  {
    Operators.ConvertOneOperator(a, p, b);
    var e := Binary(p, Number(a), Number(b));
    assert Emit(e) == a + " " + b + [p];
    EvalPostfix(ar, e);
  }

  /** Number, operator, number, operator, number: `Calculate` applies the
      two operators in the order the pop condition of lines 131-133 chose.
      If `q` pops `p`, the result is `(a p b) q c`; otherwise `a p (b q c)`.
      So `8-3-2` is `(8-3)-2`, `2^3^2` is `2^(3^2)` and `3+4*2` is `3+(4*2)`. */
  lemma CalculateTwoOperators<V>(ar: Arith<V>, a: string, p: char, b: string, q: char, c: string)
    requires Operators.Digits(a) && Operators.Digits(b) && Operators.Digits(c) && IsOper(p) && IsOper(q)
    ensures Convert(a + [p] + b + [q] + c, []).err == None
    ensures var va, vb, vc := ar.parse(a), ar.parse(b), ar.parse(c);
      Eval(ar, Convert(a + [p] + b + [q] + c, []).rpnText) ==
      Success(if ShouldPop(q, p) then ar.apply(q, ar.apply(p, va, vb), vc)
              else ar.apply(p, va, ar.apply(q, vb, vc)))
  {
    Operators.ConvertTwoOperators(a, p, b, q, c);
    if ShouldPop(q, p) {
      EvalPoppedFirst(ar, a, p, b, q, c);
    } else {
      EvalKeptFirst(ar, a, p, b, q, c);
    }
  }

  /** Two numbers, each followed by a space, push their parsed values. */
  lemma EvalTwoNumbers<V>(ar: Arith<V>, a: string, b: string, rest: string)
    requires Operators.Digits(a) && Operators.Digits(b)
    ensures EvalFrom(ar, a + " " + b + " " + rest, []) == EvalFrom(ar, rest, [ar.parse(a)] + [ar.parse(b)])
  {
    var va, vb := ar.parse(a), ar.parse(b);
    var r1 := " " + rest;
    var r0 := b + r1;
    var t0 := " " + r0;
    assert a + " " + b + " " + rest == a + t0;
    EvalNumber(ar, a, t0, []);
    assert [] + [va] == [va];
    EvalSkips(ar, " ", r0, [va]);
    EvalNumber(ar, b, r1, [va]);
    EvalSkips(ar, " ", rest, [va] + [vb]);
  }

  /** `a b p c q` (with the spaces `ToRPN` writes) is `(a p b) q c`. */
  lemma EvalPoppedFirst<V>(ar: Arith<V>, a: string, p: char, b: string, q: char, c: string)
    requires Operators.Digits(a) && Operators.Digits(b) && Operators.Digits(c) && IsOper(p) && IsOper(q)
    ensures Eval(ar, a + " " + b + " " + [p] + c + [q]) ==
      Success(ar.apply(q, ar.apply(p, ar.parse(a), ar.parse(b)), ar.parse(c)))
  {
    var va, vb, vc := ar.parse(a), ar.parse(b), ar.parse(c);
    var vab := ar.apply(p, va, vb);
    var rest := [p] + (c + [q]);
    assert a + " " + b + " " + [p] + c + [q] == a + " " + b + " " + rest;
    EvalTwoNumbers(ar, a, b, rest);
    EvalOperator(ar, p, c + [q], [], va, vb);
    assert [] + [va] + [vb] == [va] + [vb] && [] + [vab] == [vab];
    EvalNumber(ar, c, [q], [vab]);
    assert [q] + [] == [q];
    EvalOperator(ar, q, [], [], vab, vc);
    assert [] + [vab] + [vc] == [vab] + [vc];
  }

  /** `a b c q p` is `a p (b q c)`. */
  lemma EvalKeptFirst<V>(ar: Arith<V>, a: string, p: char, b: string, q: char, c: string)
    requires Operators.Digits(a) && Operators.Digits(b) && Operators.Digits(c) && IsOper(p) && IsOper(q)
    ensures Eval(ar, a + " " + b + " " + c + [q, p]) ==
      Success(ar.apply(p, ar.parse(a), ar.apply(q, ar.parse(b), ar.parse(c))))
  {
    var va, vb, vc := ar.parse(a), ar.parse(b), ar.parse(c);
    var vbc := ar.apply(q, vb, vc);
    var rest := c + ([q] + [p]);
    assert a + " " + b + " " + c + [q, p] == a + " " + b + " " + rest;
    EvalTwoNumbers(ar, a, b, rest);
    EvalNumber(ar, c, [q] + [p], [va] + [vb]);
    EvalOperator(ar, q, [p], [va], vb, vc);
    assert [p] + [] == [p];
    EvalOperator(ar, p, [], [], va, vbc);
    assert [] + [va] + [vbc] == [va] + [vbc];
  }

  /** Two calls on one stack: `3+4)` fails and leaves `+` behind; the
      following `5` is then converted to `5+`, whose evaluation fails for
      lack of operands, and `Calculate` reports no error and the zero
      result. On a fresh stack the same `5` yields its parsed value. */
  method FailedCallSpoilsNext<V>(ar: Arith<V>) returns (first: Option<ConvError>, second: V, secondErr: Option<ConvError>, alone: V)
    ensures first == Some(MissingOpen)
    ensures secondErr == None && second == ar.zero
    ensures alone == ar.parse("5")
  {
    Operators.ConvertUnopened("3", '+', "4");
    assert "3" + ['+'] + "4" + ")" == "3+4)";
    ConvertExamples.LeftoverAfterFailure();
    ConvertExamples.DigitsAlone();
    LeftoverFailsEvaluation(ar);
    NumberEvaluates(ar);
    var ops := new OperatorStack();
    var res, at;
    res, at, first := Calculate(ops, ar, "3+4)");
    second, at, secondErr := Calculate(ops, ar, "5");
    var other := new OperatorStack();
    var err;
    alone, at, err := Calculate(other, ar, "5");
  }

  /** `5+` holds one value when the `+` is read. */
  lemma LeftoverFailsEvaluation<V>(ar: Arith<V>)
    ensures Eval(ar, "5+") == Failure(FewOperands('+'))
  {
    var t := "5+";
    assert RunLength(t) == 1 by {
      RunLengthOfRun("5", "+");
    }
    assert t[1..] == "+";
  }

  /** A number alone evaluates to its parsed value. */
  lemma NumberEvaluates<V>(ar: Arith<V>)
    ensures Eval(ar, "5") == Success(ar.parse("5"))
  {
    EvalPostfix(ar, Number("5"));
  }
}
