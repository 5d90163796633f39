/** The RPN evaluator `calculateRPN` (rpn.go lines 206-265) and its number
    scanner `get_num` (lines 183-204). Values are abstract: `Arith` supplies
    the zero value, the parsing of a captured run of digits and points, and
    the six binary operators. */
module Evaluator {
  import opened Tokens
  import opened Results

  /** The value domain: `zero` is the Go zero value returned on errors and
      for an empty text, `parse` stands for `strconv.ParseFloat` of a
      captured run, `apply(op, lhs, rhs)` for the arithmetic of lines
      233-247. */
  datatype Arith<!V> = Arith(zero: V, parse: string -> V, apply: (char, V, V) -> V)

  /** The errors `calculateRPN` can return. */
  datatype CalcError =
    | FewOperands(op: char)  // line 225
    | TooManyValues          // line 253, "Complex expression"
    | NeedMoreOperations     // line 261

  /** Length of the run of digits and points that starts `t`. */
  function RunLength(t: string): (n: nat)
    ensures n <= |t|
    ensures forall k :: 0 <= k < n ==> IsNumChar(t[k])
    ensures n == |t| || !IsNumChar(t[n])
  {
    if t == [] || !IsNumChar(t[0]) then 0 else 1 + RunLength(t[1..])
  }

  /** The loop of lines 216-258 on the unread text `rest` with the operand
      stack `st` (top at the end), then lines 260-264. */
  function EvalFrom<V>(ar: Arith<V>, rest: string, st: seq<V>): (r: Result<V, CalcError>)
    requires |st| <= NumStackSize
    ensures r.Failure? && r.error.FewOperands? ==> IsOper(r.error.op) && r.error.op in rest
    ensures |st| > 1 && (forall k :: 0 <= k < |rest| ==> !IsOper(rest[k])) ==> r.Failure?
    decreases |rest|
  {
    if rest == [] then
      if |st| > 1 then Failure(NeedMoreOperations)
      else Success(if st == [] then ar.zero else st[0])
    else
      var c := rest[0];
      if IsOper(c) then
        if |st| < 2 then Failure(FewOperands(c))
        else EvalFrom(ar, rest[1..], st[..|st| - 2] + [ar.apply(c, st[|st| - 2], st[|st| - 1])])
      else if IsNumChar(c) then
        var n := RunLength(rest);
        if |st| >= NumStackSize then Failure(TooManyValues)
        else EvalFrom(ar, rest[n..], st + [ar.parse(rest[..n])])
      else EvalFrom(ar, rest[1..], st)
  }

  /** `calculateRPN(rpnText)` as a value. An empty text yields the zero
      value (`st[0]` of the fresh array); a lack of operands is reported
      for an operator of the text. */
  function Eval<V>(ar: Arith<V>, rpnText: string): (r: Result<V, CalcError>)
    ensures rpnText == [] ==> r == Success(ar.zero)
    ensures r.Failure? && r.error.FewOperands? ==> IsOper(r.error.op) && r.error.op in rpnText
  {
    EvalFrom(ar, rpnText, [])
  }

  /** `get_num` (lines 183-204) with the reader at `pos`: it captures the
      maximal run of digits and points from `pos`, leaves the reader on the
      first other rune (or at the end), and parses the capture. */
  method GetNum<V>(ar: Arith<V>, text: string, pos: nat) returns (f: V, next: nat)
    requires pos <= |text|
    ensures pos <= next <= |text|
    ensures forall k :: pos <= k < next ==> IsNumChar(text[k])
    ensures next == |text| || !IsNumChar(text[next])
    ensures next - pos == RunLength(text[pos..])
    ensures f == ar.parse(text[pos..next])
  {
    var s := "";
    next := pos;
    while next < |text| && IsNumChar(text[next])
      invariant pos <= next <= |text|
      invariant s == text[pos..next]
      invariant RunLength(text[pos..]) == next - pos + RunLength(text[next..])
    {
      s := s + [text[next]];
      next := next + 1;
    }
    f := ar.parse(s);
  }

  /** `calculateRPN`: the operand stack is an array of `NUM_STACK_SIZE`
      values with the count `cnt`. The result and the error are those of
      `Eval`; on an error the result is the zero value. */
  method CalculateRpn<V>(ar: Arith<V>, rpnText: string) returns (res: V, err: Option<CalcError>)
    ensures match Eval(ar, rpnText)
      case Success(v) => err == None && res == v
      case Failure(e) => err == Some(e) && res == ar.zero
  {
    var st := new V[NumStackSize](_ => ar.zero);
    var cnt := 0;
    var i := 0;
    while i < |rpnText|
      invariant 0 <= i <= |rpnText| && 0 <= cnt <= NumStackSize
      invariant cnt == 0 ==> st[0] == ar.zero
      invariant EvalFrom(ar, rpnText[i..], st[..cnt]) == Eval(ar, rpnText)
    {
      var r := rpnText[i];
      ghost var held := st[..cnt];
      ghost var rest := rpnText[i..];
      assert rest[0] == r;
      if IsOper(r) {
        if cnt < 2 {
          assert EvalFrom(ar, rest, held) == Failure(FewOperands(r));
          return ar.zero, Some(FewOperands(r));
        }
        ghost var merged := held[..cnt - 2] + [ar.apply(r, held[cnt - 2], held[cnt - 1])];
        assert EvalFrom(ar, rest, held) == EvalFrom(ar, rpnText[i + 1..], merged) by {
          assert rest[1..] == rpnText[i + 1..];
        }
        cnt := cnt - 1;
        st[cnt - 1] := ar.apply(r, st[cnt - 1], st[cnt]);
        assert st[..cnt] == merged;
        i := i + 1;
      } else if IsNumChar(r) {
        var f, next := GetNum(ar, rpnText, i);
        if cnt >= NumStackSize {
          assert EvalFrom(ar, rest, held) == Failure(TooManyValues);
          return ar.zero, Some(TooManyValues);
        }
        assert EvalFrom(ar, rest, held) == EvalFrom(ar, rpnText[next..], held + [f]) by {
          assert rest[..next - i] == rpnText[i..next] && rest[next - i..] == rpnText[next..];
        }
        st[cnt] := f;
        cnt := cnt + 1;
        assert st[..cnt] == held + [f];
        i := next;
      } else {
        assert EvalFrom(ar, rest, held) == EvalFrom(ar, rpnText[i + 1..], held) by {
          assert rest[1..] == rpnText[i + 1..];
        }
        i := i + 1;
      }
    }
    if cnt > 1 {
      return ar.zero, Some(NeedMoreOperations);
    }
    return st[0], None;
  }

  /** Runes that are neither operators nor digits nor points are skipped
      (the `switch` of lines 221-257 has no case for them). */
  lemma {:induction false} EvalSkips<V>(ar: Arith<V>, junk: string, rest: string, st: seq<V>)
    requires |st| <= NumStackSize
    requires forall k :: 0 <= k < |junk| ==> !IsOper(junk[k]) && !IsNumChar(junk[k])
    ensures EvalFrom(ar, junk + rest, st) == EvalFrom(ar, rest, st)
    decreases |junk|
  {
    if junk == [] {
      assert junk + rest == rest;
    } else {
      assert (junk + rest)[0] == junk[0];
      assert (junk + rest)[1..] == junk[1..] + rest;
      EvalSkips(ar, junk[1..], rest, st);
    }
  }

  /** Whether the evaluation fails, and with which error, depends only on
      the text and on how many values are held, never on the values: the
      checks of lines 224, 252 and 260 look at `st_cnt` alone. */
  lemma {:induction false} ErrorsIgnoreValues<V, W>(ar: Arith<V>, br: Arith<W>, rest: string, st: seq<V>, su: seq<W>)
    requires |st| == |su| <= NumStackSize
    ensures EvalFrom(ar, rest, st).Failure? <==> EvalFrom(br, rest, su).Failure?
    ensures EvalFrom(ar, rest, st).Failure? ==> EvalFrom(ar, rest, st).error == EvalFrom(br, rest, su).error
    decreases |rest|
  {
    if rest != [] {
      var c := rest[0];
      if IsOper(c) {
        if |st| >= 2 {
          ErrorsIgnoreValues(ar, br, rest[1..],
            st[..|st| - 2] + [ar.apply(c, st[|st| - 2], st[|st| - 1])],
            su[..|su| - 2] + [br.apply(c, su[|su| - 2], su[|su| - 1])]);
        }
      } else if IsNumChar(c) {
        var n := RunLength(rest);
        if |st| < NumStackSize {
          ErrorsIgnoreValues(ar, br, rest[n..], st + [ar.parse(rest[..n])], su + [br.parse(rest[..n])]);
        }
      } else {
        ErrorsIgnoreValues(ar, br, rest[1..], st, su);
      }
    }
  }

  /** The expression tree that a postfix text spells: a number, or an
      operator applied to two subtrees. */
  datatype Postfix = Number(digits: string) | Binary(op: char, lhs: Postfix, rhs: Postfix)

  predicate WellBuilt(e: Postfix)
  {
    match e
    case Number(d) => |d| > 0 && forall k :: 0 <= k < |d| ==> IsNumChar(d[k])
    case Binary(op, l, r) => IsOper(op) && WellBuilt(l) && WellBuilt(r)
  }

  /** A postfix text for a tree: the left operand, a space, the right
      operand, the operator. For one operator between two numbers this is
      exactly what `ToRPN` writes (`Operators.ConvertOneOperator`). With
      two operators `ToRPN` places the spaces differently, and
      `Facade.CalculateTwoOperators` shows its text evaluates to the value
      of the matching tree; for longer expressions that link is not
      proved. */
  function Emit(e: Postfix): string
  {
    match e
    case Number(d) => d
    case Binary(op, l, r) => Emit(l) + " " + Emit(r) + [op]
  }

  /** The value a tree denotes. */
  function Value<V>(ar: Arith<V>, e: Postfix): V
  {
    match e
    case Number(d) => ar.parse(d)
    case Binary(op, l, r) => ar.apply(op, Value(ar, l), Value(ar, r))
  }

  /** The number of operand slots the evaluation of a tree occupies at its
      peak: the right operand is evaluated above the left one's value. */
  function Height(e: Postfix): nat
  {
    match e
    case Number(_) => 1
    case Binary(_, l, r) => if Height(l) > Height(r) + 1 then Height(l) else Height(r) + 1
  }

  /** A run of digits and points followed by anything else is read whole. */
  lemma {:induction false} RunLengthOfRun(d: string, rest: string)
    requires forall k :: 0 <= k < |d| ==> IsNumChar(d[k])
    requires rest == [] || !IsNumChar(rest[0])
    ensures RunLength(d + rest) == |d|
    decreases |d|
  {
    if d == [] {
      assert d + rest == rest;
    } else {
      assert (d + rest)[1..] == d[1..] + rest;
      RunLengthOfRun(d[1..], rest);
    }
  }

  /** A number's digits followed by a non-digit push the parsed number. */
  lemma EvalNumber<V>(ar: Arith<V>, d: string, rest: string, st: seq<V>)
    requires |d| > 0 && forall k :: 0 <= k < |d| ==> IsNumChar(d[k])
    requires |st| < NumStackSize && (rest == [] || !IsNumChar(rest[0]))
    ensures EvalFrom(ar, d + rest, st) == EvalFrom(ar, rest, st + [ar.parse(d)])
  {
    var t := d + rest;
    RunLengthOfRun(d, rest);
    assert t[0] == d[0];
    assert t[|d|..] == rest && t[..|d|] == d;
  }

  /** An operator replaces the two values on top with its result. */
  lemma EvalOperator<V>(ar: Arith<V>, op: char, rest: string, st: seq<V>, vl: V, vr: V)
    requires IsOper(op) && |st| + 2 <= NumStackSize
    ensures EvalFrom(ar, [op] + rest, st + [vl] + [vr]) == EvalFrom(ar, rest, st + [ar.apply(op, vl, vr)])
  {
    var t := [op] + rest;
    var h := st + [vl] + [vr];
    assert t[0] == op && t[1..] == rest;
    assert h[..|h| - 2] == st && h[|h| - 2] == vl && h[|h| - 1] == vr;
  }

  /** The space between two operands is skipped, and the operator after
      them combines the two values on top. */
  lemma EvalSpaceAndOperator<V>(ar: Arith<V>, op: char, tr: string, rest: string, st: seq<V>, vl: V, vr: V)
    requires IsOper(op) && |st| + 2 <= NumStackSize
    requires EvalFrom(ar, tr + ([op] + rest), st + [vl]) == EvalFrom(ar, [op] + rest, st + [vl] + [vr])
    ensures EvalFrom(ar, " " + (tr + ([op] + rest)), st + [vl]) == EvalFrom(ar, rest, st + [ar.apply(op, vl, vr)])
  {
    var rest1 := " " + (tr + ([op] + rest));
    assert rest1[0] == ' ' && rest1[1..] == tr + ([op] + rest);
    EvalOperator(ar, op, rest, st, vl, vr);
  }

  /** Evaluating the text of a tree pushes exactly the tree's value, as
      long as the operand stack has room for the tree's height. */
  lemma {:induction false} EvalEmitted<V>(ar: Arith<V>, e: Postfix, rest: string, st: seq<V>)
    requires WellBuilt(e) && |st| + Height(e) <= NumStackSize
    requires rest == [] || !IsNumChar(rest[0])
    ensures EvalFrom(ar, Emit(e) + rest, st) == EvalFrom(ar, rest, st + [Value(ar, e)])
    decreases e
  {
    match e
    case Number(d) =>
      EvalNumber(ar, d, rest, st);
    case Binary(op, l, r) =>
      var vl := Value(ar, l);
      var tail := [op] + rest;
      var rest1 := " " + (Emit(r) + tail);
      assert Emit(e) + rest == Emit(l) + rest1;
      EvalEmitted(ar, l, rest1, st);
      EvalEmitted(ar, r, tail, st + [vl]);
      EvalSpaceAndOperator(ar, op, Emit(r), rest, st, vl, Value(ar, r));
  }

  /** `calculateRPN` of a tree's text is the tree's value. */
  lemma EvalPostfix<V>(ar: Arith<V>, e: Postfix)
    requires WellBuilt(e) && Height(e) <= NumStackSize
    ensures Eval(ar, Emit(e)) == Success(Value(ar, e))
  {
    EvalEmitted(ar, e, [], []);
    assert Emit(e) + [] == Emit(e);
  }
}
