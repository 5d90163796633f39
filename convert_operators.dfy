/** How `ToRPN` (rpn.go lines 73-181) orders operators, stated for whole
    families of expressions: numbers joined by one or two operators, two
    operators in a row, and a `)` that closes nothing. */
module Operators {
  import opened Tokens
  import opened Results
  import opened ConvertSpec

  /** A non-empty run of decimal digits. */
  predicate Digits(a: string)
  {
    |a| > 0 && forall k :: 0 <= k < |a| ==> IsDigit(a[k])
  }

  /** The state after the digits `s[i..j]` have been scanned from `st`. */
  function AfterDigits(s: string, i: nat, j: nat, st: Scan): Scan
    requires i <= j <= |s|
  {
    st.(rpnText := st.rpnText + s[i..j], wrongAt := st.wrongAt + (j - i),
        prevRune := if i == j then st.prevRune else s[j - 1])
  }

  /** Lines 155-165 repeated: a run of digits is copied to the text, one
      byte per digit, and leaves its last digit in `prevRune`. */
  lemma {:induction false} ScanDigits(s: string, i: nat, j: nat, st: Scan, fin: Scan)
    requires i <= j <= |s| && Sound(st) && (i < j ==> st.prevRune != ')')
    requires forall k :: i <= k < j ==> IsDigit(s[k])
    requires fin == AfterDigits(s, i, j, st)
    ensures Sound(fin) && Run(s, i, st) == Run(s, j, fin)
    decreases j - i
  {
    if i == j {
      assert st.rpnText + s[i..j] == st.rpnText;
      assert fin == st;
    } else {
      var next := st.(rpnText := st.rpnText + [s[i]], wrongAt := st.wrongAt + 1, prevRune := s[i]);
      assert StepRune(st, s[i]) == Continue(next);
      assert s[i..j] == [s[i]] + s[i + 1..j];
      assert st.rpnText + [s[i]] + s[i + 1..j] == st.rpnText + ([s[i]] + s[i + 1..j]);
      assert fin == AfterDigits(s, i + 1, j, next);
      ScanDigits(s, i + 1, j, next, fin);
    }
  }

  /** The digits of `a` placed at offset `i` of `s`. */
  lemma PlacedDigits(s: string, i: nat, a: string)
    requires Digits(a) && i + |a| <= |s| && s[i..i + |a|] == a
    ensures forall k :: i <= k < i + |a| ==> IsDigit(s[k])
    ensures s[i + |a| - 1] == a[|a| - 1]
  {
    assert forall k :: i <= k < i + |a| ==> s[k] == a[k - i];
  }

  /** Lines 122-142 for an operator after a digit, when the pop loop
      keeps `kept` of the stack. */
  lemma ScanOperatorAfterDigit(s: string, i: nat, st: Scan, kept: seq<char>, fin: Scan)
    requires i < |s| && IsOper(s[i]) && Sound(st) && IsDigit(st.prevRune)
    requires PopHigher(s[i], st.stack, st.rpnText + " ").stack == kept && |kept| < OpStackSize
    requires fin == st.(rpnText := PopHigher(s[i], st.stack, st.rpnText + " ").rpnText,
                        wrongAt := st.wrongAt + 1, prevRune := s[i], pointCount := 0,
                        stack := kept + [s[i]])
    ensures Run(s, i, st) == Run(s, i + 1, fin)
  {
    assert Utf8Size(s[i]) == 1;
    assert OnOperator(st, s[i]) == Continue(fin);
    assert StepRune(st, s[i]) == Continue(fin);
  }

  /** A number `a` and an operator `p` opening `s`: the text is `a` and the
      space of `p`, and `p` is the only stack entry. */
  lemma NumberThenOperator(s: string, a: string, p: char)
    requires Digits(a) && IsOper(p) && |a| < |s| && s[..|a| + 1] == a + [p]
    ensures Run(s, 0, Start([])) == Run(s, |a| + 1, Scan(a + " ", |a| + 1, p, 0, 0, [p]))
  {
    var i := |a|;
    var st1 := Scan(a, i, a[i - 1], 0, 0, []);
    assert Run(s, 0, Start([])) == Run(s, i, st1) by {
      assert s[0..i] == s[..i + 1][..i] == a;
      PlacedDigits(s, 0, a);
      ScanDigits(s, 0, i, Start([]), st1);
    }
    assert Run(s, i, st1) == Run(s, i + 1, Scan(a + " ", i + 1, p, 0, 0, [p])) by {
      assert s[i] == s[..i + 1][i] == p;
      assert PopHigher(p, [], a + " ") == Popped([], a + " ");
      ScanOperatorAfterDigit(s, i, st1, [], Scan(a + " ", i + 1, p, 0, 0, [p]));
    }
  }

  /** Digits up to the end of the text, with no `(` open: the digits are
      copied and the stack is drained behind them, top first. */
  lemma DigitsThenEnd(s: string, i: nat, st: Scan)
    requires i <= |s| && Sound(st) && st.prevRune != ')' && st.openCount == 0
    requires forall k :: i <= k < |s| ==> IsDigit(s[k])
    ensures Run(s, i, st) == Outcome(st.rpnText + s[i..] + Reversed(st.stack), -1, None, [])
  {
    var fin := AfterDigits(s, i, |s|, st);
    ScanDigits(s, i, |s|, st, fin);
    assert Run(s, |s|, fin) == Finish(fin);
  }

  /** Two numbers and one operator: the operator follows the second number,
      after the space written when it was scanned. */
  lemma ConvertOneOperator(a: string, p: char, b: string)
    requires Digits(a) && Digits(b) && IsOper(p)
    ensures Convert(a + [p] + b, []) == Outcome(a + " " + b + [p], -1, None, [])
  {
    var s := a + [p] + b;
    var i := |a| + 1;
    assert s[..i] == a + [p];
    NumberThenOperator(s, a, p);
    assert s[i..] == b;
    PlacedDigits(s, i, b);
    DigitsThenEnd(s, i, Scan(a + " ", i, p, 0, 0, [p]));
    assert Reversed([p]) == [p];
  }

  /** An operator after a digit, then digits to the end, with no `(` open:
      the operator pops what `PopHigher` pops, and the rest of the stack
      comes out behind the trailing digits and the operator. */
  lemma OperatorThenDigitsToEnd(s: string, j: nat, st: Scan, c: string)
    requires j < |s| && IsOper(s[j]) && s[j + 1..] == c && Digits(c)
    requires Sound(st) && IsDigit(st.prevRune) && st.openCount == 0
    requires |PopHigher(s[j], st.stack, st.rpnText + " ").stack| < OpStackSize
    ensures var pop := PopHigher(s[j], st.stack, st.rpnText + " ");
      Run(s, j, st) == Outcome(pop.rpnText + c + Reversed(pop.stack + [s[j]]), -1, None, [])
  {
    var pop := PopHigher(s[j], st.stack, st.rpnText + " ");
    var fin := st.(rpnText := pop.rpnText, wrongAt := st.wrongAt + 1, prevRune := s[j],
                   pointCount := 0, stack := pop.stack + [s[j]]);
    ScanOperatorAfterDigit(s, j, st, pop.stack, fin);
    assert Sound(fin) by {
      assert Count(fin.stack, '(') >= 0;
    }
    assert forall k :: j + 1 <= k < |s| ==> IsDigit(s[k]) by {
      PlacedDigits(s, j + 1, c);
    }
    DigitsThenEnd(s, j + 1, fin);
  }

  /** Where the pieces of `a p b q c` sit. */
  lemma TwoOperatorsPieces(a: string, p: char, b: string, q: char, c: string)
    ensures var s := a + [p] + b + [q] + c; var j := |a| + 1 + |b|;
      s[..|a| + 1] == a + [p] && s[|a| + 1..j] == b && s[j] == q && s[j + 1..] == c
  {
  }

  /** After `a p` of `a p b q c`, the second number is copied and `q`
      runs the pop loop on a stack holding only `p`. */
  lemma AfterFirstOperator(s: string, a: string, p: char, b: string, q: char, c: string)
    requires Digits(a) && Digits(b) && Digits(c) && IsOper(p) && IsOper(q)
    requires |a| + 1 + |b| < |s| && s[|a| + 1..|a| + 1 + |b|] == b
    requires s[|a| + 1 + |b|] == q && s[|a| + 2 + |b|..] == c
    ensures var pop := PopHigher(q, [p], a + " " + b + " ");
      Run(s, |a| + 1, Scan(a + " ", |a| + 1, p, 0, 0, [p])) ==
      Outcome(pop.rpnText + c + Reversed(pop.stack + [q]), -1, None, [])
  {
    var i := |a| + 1;
    var j := i + |b|;
    var fin := Scan(a + " " + b, j, b[|b| - 1], 0, 0, [p]);
    PlacedDigits(s, i, b);
    ScanDigits(s, i, j, Scan(a + " ", i, p, 0, 0, [p]), fin);
    OperatorThenDigitsToEnd(s, j, fin, c);
  }

  /** Number, operator, number, operator, number: the second operator runs
      the pop loop on a stack holding only the first. */
  lemma NumberOperatorNumberOperatorNumber(a: string, p: char, b: string, q: char, c: string)
    requires Digits(a) && Digits(b) && Digits(c) && IsOper(p) && IsOper(q)
    ensures var pop := PopHigher(q, [p], a + " " + b + " ");
      Convert(a + [p] + b + [q] + c, []) ==
      Outcome(pop.rpnText + c + Reversed(pop.stack + [q]), -1, None, [])
  {
    var s := a + [p] + b + [q] + c;
    TwoOperatorsPieces(a, p, b, q, c);
    NumberThenOperator(s, a, p);
    AfterFirstOperator(s, a, p, b, q, c);
  }

  /** The pop loop on a one-entry stack either pops that entry or keeps it. */
  lemma PopHigherSingle(q: char, p: char, t: string)
    ensures PopHigher(q, [p], t) ==
      if ShouldPop(q, p) then Popped([], t + [p]) else Popped([p], t)
  {
    if ShouldPop(q, p) {
      assert [p][..0] == [];
      assert PopHigher(q, [], t + [p]) == Popped([], t + [p]);
    }
  }

  /** Two operators between three numbers: when the second operator `q`
      pops the first `p` (`p` binds at least as tightly, and `q` is
      left-associative or `p` binds more tightly), `p` follows the second
      number; otherwise `p` waits on the stack and comes out last, after
      the third number and `q`. */
  lemma ConvertTwoOperators(a: string, p: char, b: string, q: char, c: string)
    requires Digits(a) && Digits(b) && Digits(c) && IsOper(p) && IsOper(q)
    ensures Convert(a + [p] + b + [q] + c, []) ==
      Outcome(if ShouldPop(q, p) then a + " " + b + " " + [p] + c + [q]
              else a + " " + b + " " + c + [q, p], -1, None, [])
  {
    NumberOperatorNumberOperatorNumber(a, p, b, q, c);
    PopHigherSingle(q, p, a + " " + b + " ");
    if ShouldPop(q, p) {
      assert [] + [q] == [q];
    } else {
      assert Reversed([p] + [q]) == [q, p] by {
        ReversedSnoc([p], q);
        assert Reversed([p]) == [p];
      }
    }
  }

  /** Lines 123-126: an operator right after an operator stops the call
      at the second one's offset, naming the first. */
  lemma OperatorAfterOperator(s: string, i: nat, st: Scan)
    requires i < |s| && IsOper(s[i]) && Sound(st) && IsOper(st.prevRune)
    ensures Run(s, i, st) == Fail(st, OperatorMisplaced(st.prevRune))
  {
    assert StepRune(st, s[i]) == OnOperator(st, s[i]);
  }

  /** An operator directly after an operator is refused at the second one's
      offset; the first stays on the stack. */
  lemma ConvertAdjacentOperators(a: string, p: char, q: char, rest: string)
    requires Digits(a) && IsOper(p) && IsOper(q)
    ensures Convert(a + [p, q] + rest, []) == Outcome("", |a| + 1, Some(OperatorMisplaced(p)), [p])
  {
    var s := a + [p, q] + rest;
    assert s[..|a| + 1] == a + [p];
    NumberThenOperator(s, a, p);
    assert s[|a| + 1] == q;
    OperatorAfterOperator(s, |a| + 1, Scan(a + " ", |a| + 1, p, 0, 0, [p]));
  }

  /** Lines 105-111: a `)` after a digit while no `(` of this call is open
      stops the call at its own offset. */
  lemma CloseUnopened(s: string, i: nat, st: Scan)
    requires i < |s| && s[i] == ')' && Sound(st) && IsDigit(st.prevRune) && st.openCount == 0
    ensures Run(s, i, st) == Fail(st, MissingOpen)
  {
    assert StepRune(st, s[i]) == OnClose(st);
  }

  /** A `)` with no `(` before it, after a number, an operator and a
      number: the call fails at the `)`, and the operator stays on the
      stack. */
  lemma ConvertUnopened(a: string, p: char, b: string)
    requires Digits(a) && Digits(b) && IsOper(p)
    ensures Convert(a + [p] + b + ")", []) == Outcome("", |a| + |b| + 1, Some(MissingOpen), [p])
  {
    var s := a + [p] + b + ")";
    var i := |a| + 1;
    var j := i + |b|;
    assert s[..i] == a + [p];
    NumberThenOperator(s, a, p);
    assert s[i..j] == b;
    PlacedDigits(s, i, b);
    var st2 := Scan(a + " ", i, p, 0, 0, [p]);
    var st3 := Scan(a + " " + b, j, b[|b| - 1], 0, 0, [p]);
    ScanDigits(s, i, j, st2, st3);
    assert s[j] == ')';
    CloseUnopened(s, j, st3);
  }
}
