/** What the RPN text produced by `ToRPN` (rpn.go lines 73-181) is made of:
    the digits and points of the expression in their order, one space per
    operator, every operator of the expression once, and whatever the
    operator stack held when the call began. */
module Shape {
  import opened Tokens
  import opened Results
  import opened ConvertSpec
  import Operators

  /** What the operator stack ever holds: `(` and operators. */
  predicate StackEntry(c: char)
  {
    c == '(' || IsOper(c)
  }

  predicate StackEntries(x: seq<char>)
  {
    forall k :: 0 <= k < |x| ==> StackEntry(x[k])
  }

  /** What the RPN text is written with. */
  predicate RpnChar(c: char)
  {
    IsNumChar(c) || c == ' ' || StackEntry(c)
  }

  predicate RpnChars(t: string)
  {
    forall k :: 0 <= k < |t| ==> RpnChar(t[k])
  }

  /** Number of operators in `p`. */
  function OperCount(p: string): nat
  {
    if p == [] then 0 else OperCount(p[..|p| - 1]) + (if IsOper(p[|p| - 1]) then 1 else 0)
  }

  /** The relation between the first `i` runes of `s`, the stack `L` the call
      started from, and the scan state, for the operator `c`: the text has
      the digits and points of the prefix, a space per operator and no `(`;
      the stack holds the `(` of `L` plus the ones still open; every `c` of
      the prefix or of `L` is either in the text or still on the stack. */
  predicate Shaped(s: string, i: nat, st: Scan, L: seq<char>, c: char)
    requires i <= |s|
  {
    StackEntries(st.stack) && RpnChars(st.rpnText) &&
    NumChars(st.rpnText) == NumChars(s[..i]) &&
    Count(st.rpnText, ' ') == OperCount(s[..i]) &&
    Count(st.rpnText, '(') == 0 &&
    Count(st.stack, '(') == Count(L, '(') + st.openCount &&
    Count(st.rpnText, c) + Count(st.stack, c) == Count(s[..i], c) + Count(L, c)
  }

  /** Popped stack entries read top first are stack entries too. */
  lemma {:induction false} ReversedEntries(x: seq<char>)
    requires StackEntries(x)
    ensures StackEntries(Reversed(x))
    ensures NumChars(Reversed(x)) == []
    ensures Count(Reversed(x), ' ') == 0
    decreases |x|
  {
    if x != [] {
      var f := x[..|x| - 1];
      ReversedEntries(f);
      assert Reversed(x) == [x[|x| - 1]] + Reversed(f);
      NumCharsAppend([x[|x| - 1]], Reversed(f));
      assert [x[|x| - 1]][..0] == [];
      CountAppend([x[|x| - 1]], Reversed(f), ' ');
    }
  }

  /** Moving entries `cut` from the top of the stack to the end of the text
      keeps the text well formed and adds no digit, point or space. */
  lemma EmitEntries(text: string, cut: seq<char>)
    requires RpnChars(text) && StackEntries(cut)
    ensures RpnChars(text + Reversed(cut))
    ensures NumChars(text + Reversed(cut)) == NumChars(text)
    ensures Count(text + Reversed(cut), ' ') == Count(text, ' ')
    ensures forall c :: Count(text + Reversed(cut), c) == Count(text, c) + Count(cut, c)
  {
    ReversedEntries(cut);
    NumCharsAppend(text, Reversed(cut));
    CountAppend(text, Reversed(cut), ' ');
    forall c | true
      ensures Count(text + Reversed(cut), c) == Count(text, c) + Count(cut, c)
    {
      CountAppend(text, Reversed(cut), c);
      ReversedCount(cut, c);
    }
    var t := text + Reversed(cut);
    forall k | 0 <= k < |t|
      ensures RpnChar(t[k])
    {
      if k >= |text| {
        assert t[k] == Reversed(cut)[k - |text|];
      }
    }
  }

  /** One more rune of the prefix. */
  lemma PrefixStep(s: string, i: nat, c: char)
    requires i < |s|
    ensures s[..i + 1] == s[..i] + [s[i]]
    ensures NumChars(s[..i + 1]) == NumChars(s[..i]) + (if IsNumChar(s[i]) then [s[i]] else [])
    ensures OperCount(s[..i + 1]) == OperCount(s[..i]) + (if IsOper(s[i]) then 1 else 0)
    ensures Count(s[..i + 1], c) == Count(s[..i], c) + (if s[i] == c then 1 else 0)
  {
    assert s[..i + 1][..i] == s[..i];
  }

  lemma OpenShape(s: string, i: nat, st: Scan, n: Scan, L: seq<char>, c: char)
    requires i < |s| && s[i] == '(' && Shaped(s, i, st, L, c) && IsOper(c)
    requires n.rpnText == st.rpnText && n.stack == st.stack + ['('] && n.openCount == st.openCount + 1
    ensures Shaped(s, i + 1, n, L, c)
  {
    PrefixStep(s, i, c);
    CountAppend(st.stack, ['('], c);
    CountAppend(st.stack, ['('], '(');
    assert StackEntries(n.stack);
  }

  /** Lines 113-117 on the stack: the entries above the topmost `(` leave,
      then that `(` itself. */
  lemma CutAtOpen(stack: seq<char>, m: nat, c: char)
    requires 0 < m <= |stack| && stack[m - 1] == '(' && StackEntries(stack) && c != '('
    ensures StackEntries(stack[m..]) && StackEntries(stack[..m - 1])
    ensures Count(stack[..m - 1], c) + Count(stack[m..], c) == Count(stack, c)
    ensures Count(stack[..m - 1], '(') + 1 + Count(stack[m..], '(') == Count(stack, '(')
  {
    var rest := stack[..m - 1];
    var cut := stack[m..];
    assert stack == rest + ['('] + cut;
    CountAppend(rest + ['('], cut, c);
    CountAppend(rest, ['('], c);
    CountAppend(rest + ['('], cut, '(');
    CountAppend(rest, ['('], '(');
    assert ['('][..0] == [];
    assert forall k :: 0 <= k < |cut| ==> cut[k] == stack[m + k];
  }

  lemma CloseShape(s: string, i: nat, st: Scan, L: seq<char>, c: char)
    requires i < |s| && s[i] == ')' && Sound(st) && Shaped(s, i, st, L, c) && IsOper(c)
    requires OnClose(st).Continue?
    ensures Shaped(s, i + 1, OnClose(st).next, L, c)
  {
    var n := OnClose(st).next;
    var p := PopUntilOpen(st.stack, st.rpnText);
    var m := |p.stack|;
    var cut := st.stack[m..];
    assert p.stack[..m - 1] == st.stack[..m - 1];
    assert n.stack == st.stack[..m - 1] && n.rpnText == st.rpnText + Reversed(cut);
    assert n.openCount == st.openCount - 1;
    PrefixStep(s, i, c);
    CutAtOpen(st.stack, m, c);
    EmitEntries(st.rpnText, cut);
    CountPositive(cut, '(');
  }

  /** Lines 129-136 on the text: a space, then the popped entries. */
  lemma SpaceThenEmit(text: string, cut: seq<char>, c: char)
    requires RpnChars(text) && StackEntries(cut) && c != ' '
    ensures var t := text + " " + Reversed(cut);
      RpnChars(t) && NumChars(t) == NumChars(text) &&
      Count(t, ' ') == Count(text, ' ') + 1 &&
      Count(t, '(') == Count(text, '(') + Count(cut, '(') &&
      Count(t, c) == Count(text, c) + Count(cut, c)
  {
    CountAppend(text, " ", c);
    CountAppend(text, " ", ' ');
    CountAppend(text, " ", '(');
    NumCharsAppend(text, " ");
    assert " "[..0] == [];
    assert RpnChars(text + " ");
    EmitEntries(text + " ", cut);
  }

  /** Lines 131-137 on the stack: the popped entries leave, `r` arrives. */
  lemma PopThenPush(stack: seq<char>, m: nat, r: char, c: char)
    requires m <= |stack| && StackEntries(stack) && IsOper(r)
    ensures StackEntries(stack[m..]) && StackEntries(stack[..m] + [r])
    ensures Count(stack[..m] + [r], c) + Count(stack[m..], c) == Count(stack, c) + (if r == c then 1 else 0)
    ensures Count(stack[..m] + [r], '(') + Count(stack[m..], '(') == Count(stack, '(')
  {
    assert stack == stack[..m] + stack[m..];
    CountAppend(stack[..m], stack[m..], c);
    CountAppend(stack[..m], stack[m..], '(');
    CountAppend(stack[..m], [r], c);
    CountAppend(stack[..m], [r], '(');
    assert [r][..0] == [];
    assert forall k :: 0 <= k < |stack| - m ==> stack[m..][k] == stack[m + k];
  }

  lemma OperatorShape(s: string, i: nat, st: Scan, n: Scan, m: nat, L: seq<char>, c: char)
    requires i < |s| && IsOper(s[i]) && Shaped(s, i, st, L, c) && IsOper(c)
    requires m <= |st.stack| && '(' !in st.stack[m..]
    requires n.stack == st.stack[..m] + [s[i]] && n.openCount == st.openCount
    requires n.rpnText == st.rpnText + " " + Reversed(st.stack[m..])
    ensures Shaped(s, i + 1, n, L, c)
  {
    var cut := st.stack[m..];
    PrefixStep(s, i, c);
    PopThenPush(st.stack, m, s[i], c);
    SpaceThenEmit(st.rpnText, cut, c);
    CountPositive(cut, '(');
  }

  lemma NumberShape(s: string, i: nat, st: Scan, n: Scan, L: seq<char>, c: char)
    requires i < |s| && IsNumChar(s[i]) && Shaped(s, i, st, L, c) && IsOper(c)
    requires n.rpnText == st.rpnText + [s[i]] && n.stack == st.stack && n.openCount == st.openCount
    ensures Shaped(s, i + 1, n, L, c)
  {
    PrefixStep(s, i, c);
    CountAppend(st.rpnText, [s[i]], c);
    CountAppend(st.rpnText, [s[i]], ' ');
    CountAppend(st.rpnText, [s[i]], '(');
    NumCharsAppend(st.rpnText, [s[i]]);
    assert [s[i]][..0] == [];
  }

  /** Every step that does not end the call keeps `Shaped`. */
  lemma StepShape(s: string, i: nat, st: Scan, L: seq<char>, c: char)
    requires i < |s| && Sound(st) && Shaped(s, i, st, L, c) && IsOper(c)
    requires StepRune(st, s[i]).Continue?
    ensures Shaped(s, i + 1, StepRune(st, s[i]).next, L, c)
  {
    var r := s[i];
    if r == '(' {
      OpenShape(s, i, st, OnOpen(st).next, L, c);
    } else if r == ')' {
      CloseShape(s, i, st, L, c);
    } else if IsOper(r) {
      var p := PopHigher(r, st.stack, st.rpnText + " ");
      PopHigherKeepsOpen(r, st.stack, st.rpnText + " ");
      OperatorShape(s, i, st, OnOperator(st, r).next, |p.stack|, L, c);
    } else {
      NumberShape(s, i, st, StepRune(st, r).next, L, c);
    }
  }

  /** The RPN text of a successful call, for the operator `c`: digits and
      points exactly as in `s`, one space per operator of `s`, the `(` of
      the stack the call started from, and each `c` of `s` and of that stack. */
  predicate ShapedResult(s: string, L: seq<char>, text: string, c: char)
  {
    RpnChars(text) &&
    NumChars(text) == NumChars(s) &&
    Count(text, ' ') == OperCount(s) &&
    Count(text, '(') == Count(L, '(') &&
    Count(text, c) == Count(s, c) + Count(L, c)
  }

  /** Lines 171-180: with no parenthesis left open, the drain completes the text. */
  lemma FinishShape(s: string, st: Scan, L: seq<char>, c: char)
    requires Sound(st) && Shaped(s, |s|, st, L, c) && IsOper(c) && st.openCount == 0
    ensures ShapedResult(s, L, Finish(st).rpnText, c)
  {
    assert s[..|s|] == s;
    EmitEntries(st.rpnText, st.stack);
  }

  /** A successful run from a `Shaped` state produces a `ShapedResult`. */
  lemma {:induction false} RunShape(s: string, i: nat, st: Scan, L: seq<char>, c: char)
    requires i <= |s| && Sound(st) && Shaped(s, i, st, L, c) && IsOper(c)
    requires Run(s, i, st).err.None?
    ensures ShapedResult(s, L, Run(s, i, st).rpnText, c)
    decreases |s| - i
  {
    if i == |s| {
      FinishShape(s, st, L, c);
    } else {
      StepShape(s, i, st, L, c);
      RunShape(s, i + 1, StepRune(st, s[i]).next, L, c);
    }
  }

  /** The shape of the RPN text of a successful `ToRPN` call that starts
      from a stack `L` of `(` and operators (what earlier calls leave):
      only digits, points, spaces, operators and `(`; the digits and points
      of the expression verbatim and in order; exactly one space per
      operator of the expression; every operator of the expression and of
      `L` exactly once; and the `(` of `L`, which only a failed earlier call
      can have left behind. */
  lemma ConvertShape(s: string, L: seq<char>)
    requires |L| <= OpStackSize && StackEntries(L)
    ensures var o := Convert(s, L);
      o.err.None? ==>
        RpnChars(o.rpnText) &&
        NumChars(o.rpnText) == NumChars(s) &&
        Count(o.rpnText, ' ') == OperCount(s) &&
        Count(o.rpnText, '(') == Count(L, '(') &&
        forall c :: IsOper(c) ==> Count(o.rpnText, c) == Count(s, c) + Count(L, c)
  {
    var o := Convert(s, L);
    if o.err.None? {
      assert s[..0] == [];
      forall c | IsOper(c)
        ensures ShapedResult(s, L, o.rpnText, c)
      {
        RunShape(s, 0, Start(L), L, c);
      }
      RunShape(s, 0, Start(L), L, '+');
    }
  }

  /** The operator stack outlives the call: an expression of digits alone
      comes back followed by everything the earlier calls left on the
      stack, top first, `(` included. */
  lemma ConvertLeaksLeftover(s: string, L: seq<char>)
    requires |L| <= OpStackSize
    requires forall k :: 0 <= k < |s| ==> IsDigit(s[k])
    ensures Convert(s, L) == Outcome(s + Reversed(L), -1, None, [])
  {
    var st := Start(L);
    assert st.rpnText == [] && st.stack == L && st.prevRune != ')';
    Operators.DigitsThenEnd(s, 0, st);
    assert st.rpnText + s[0..] == s;
  }
}
