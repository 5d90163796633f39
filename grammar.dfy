/** The language `ToRPN` accepts, defined rune by rune over the text already
    read rather than through the converter's counters, and the proof that
    `ConvertSpec.Convert` accepts exactly that language (up to stack
    overflow) and reports the first offending rune (rpn.go lines 84-172). */
module Grammar {
  import opened Tokens
  import opened Results
  import opened ConvertSpec

  /** The last rune of `p`, or the zero rune when nothing has been read. */
  function LastRune(p: string): char
  {
    if p == [] then NoRune else p[|p| - 1]
  }

  /** Open parentheses minus close parentheses in `p`. */
  function Depth(p: string): int
  {
    if p == [] then 0
    else Depth(p[..|p| - 1]) + (if p[|p| - 1] == '(' then 1 else if p[|p| - 1] == ')' then -1 else 0)
  }

  /** Decimal points in the maximal run of digits and points that ends `p`. */
  function TrailingPoints(p: string): nat
  {
    if p == [] || !IsNumChar(p[|p| - 1]) then 0
    else TrailingPoints(p[..|p| - 1]) + (if p[|p| - 1] == '.' then 1 else 0)
  }

  /** The rule, if any, that rune `c` breaks when it follows the text `p`:
      `(` only at the start, after `(` or after an operator; `)` and
      operators only after `)` or a digit, and `)` only while some `(` is
      unmatched; a digit or point never right after `)`; at most one point
      per run of digits and points; nothing outside the alphabet. When `c`
      breaks two rules the one the source checks first is named. */
  function Violation(p: string, c: char): Option<ConvError>
  {
    var prev := LastRune(p);
    if c == '(' then
      if prev == NoRune || prev == '(' || IsOper(prev) then None else Some(OpenParenMisplaced(prev))
    else if c == ')' then
      if prev != ')' && !IsDigit(prev) then Some(CloseParenMisplaced(prev))
      else if Depth(p) <= 0 then Some(MissingOpen)
      else None
    else if IsOper(c) then
      if prev == ')' || IsDigit(prev) then None else Some(OperatorMisplaced(prev))
    else if IsNumChar(c) then
      if prev == ')' then Some(NumberAfterClose)
      else if c == '.' && TrailingPoints(p) > 0 then Some(TooManyPoints)
      else None
    else Some(WrongSymbol(c))
  }

  /** No rune of `s` breaks a rule. */
  predicate WellFormed(s: string)
  {
    s == [] || (WellFormed(s[..|s| - 1]) && Violation(s[..|s| - 1], s[|s| - 1]).None?)
  }

  /** A complete expression: well formed, with every `(` matched. */
  predicate Balanced(s: string)
  {
    WellFormed(s) && Depth(s) == 0
  }

  /** The converter's counters describe the first `i` runes of `s`. */
  predicate Matches(s: string, i: nat, st: Scan)
    requires i <= |s|
  {
    st.prevRune == LastRune(s[..i]) && st.openCount == Depth(s[..i]) &&
    st.pointCount == TrailingPoints(s[..i]) && st.wrongAt == ByteLen(s[..i])
  }

  /** `o` is the report of a failure at rune `j`: every rune before it is
      fine, the position is the byte offset of `j`, and the error is the rule
      that rune `j` breaks or, when it breaks none, a full operator stack
      that a `(` or an operator could not be pushed onto. */
  predicate FailsAt(s: string, j: nat, o: Outcome)
    requires j < |s|
  {
    WellFormed(s[..j]) && o.wrongAt == ByteLen(s[..j]) &&
    (var v := Violation(s[..j], s[j]);
     if v.Some? then o.err == v
     else o.err == Some(ComplexExpression) && (s[j] == '(' || IsOper(s[j])) && |o.stack| == OpStackSize)
  }

  lemma PrefixSnoc(s: string, i: nat)
    requires i < |s|
    ensures s[..i + 1][..i] == s[..i] && s[..i + 1][i] == s[i] && |s[..i + 1]| == i + 1
  {
  }

  /** When the counters describe `s[..i]`, one step of the converter on
      `s[i]` accepts exactly the runes `Violation` accepts, and keeps the
      counters describing the text read. */
  lemma StepAgrees(s: string, i: nat, st: Scan)
    requires i < |s| && Sound(st) && Matches(s, i, st)
    ensures var p, c := s[..i], s[i];
      var v := Violation(p, c);
      match StepRune(st, c)
      case Continue(n) => v.None? && Matches(s, i + 1, n)
      case Stop(o) =>
        o.wrongAt == ByteLen(p) &&
        (if v.Some? then o.err == v
         else o.err == Some(ComplexExpression) && (c == '(' || IsOper(c)) && |o.stack| == OpStackSize)
  {
    var p, c := s[..i], s[i];
    PrefixSnoc(s, i);
    var q := s[..i + 1];
    assert LastRune(q) == c;
    assert Depth(q) == Depth(p) + (if c == '(' then 1 else if c == ')' then -1 else 0);
    assert ByteLen(q) == ByteLen(p) + Utf8Size(c);
    assert IsNumChar(c) ==> TrailingPoints(q) == TrailingPoints(p) + (if c == '.' then 1 else 0);
    assert !IsNumChar(c) ==> TrailingPoints(q) == 0;
    if c == '(' && (st.prevRune == NoRune || st.prevRune == '(' || IsOper(st.prevRune)) {
      assert TrailingPoints(p) == 0;
    }
    if IsOper(c) {
      var pp := PopHigher(c, st.stack, st.rpnText + " ");
      assert |pp.stack| <= |st.stack|;
    }
  }

  /** The run from `i` on agrees with the grammar: success means a balanced
      expression, a missing `)` is reported at the end of the text, and
      every other failure is a `FailsAt` report for some rune from `i` on. */
  lemma {:induction false} RunAgrees(s: string, i: nat, st: Scan)
    requires i <= |s| && Sound(st) && Matches(s, i, st) && WellFormed(s[..i])
    ensures var o := Run(s, i, st);
      (o.err.None? ==> Balanced(s)) &&
      (o.err == Some(MissingClose) ==> WellFormed(s) && Depth(s) > 0 && o.wrongAt == ByteLen(s)) &&
      (o.err.Some? && o.err != Some(MissingClose) ==> exists j :: i <= j < |s| && FailsAt(s, j, o))
    decreases |s| - i
  {
    var o := Run(s, i, st);
    if i == |s| {
      assert s[..i] == s;
    } else {
      StepAgrees(s, i, st);
      PrefixSnoc(s, i);
      match StepRune(st, s[i])
      case Stop(o') =>
        assert o == o';
        if o.err != Some(MissingClose) {
          assert FailsAt(s, i, o);
        }
      case Continue(n) =>
        assert WellFormed(s[..i + 1]);
        RunAgrees(s, i + 1, n);
    }
  }

  /** A well-formed text has well-formed prefixes, each followed by an
      allowed rune. */
  lemma {:induction false} WellFormedPrefix(s: string, j: nat)
    requires WellFormed(s) && j < |s|
    ensures WellFormed(s[..j]) && Violation(s[..j], s[j]).None?
    decreases |s| - j
  {
    if j == |s| - 1 {
    } else {
      var f := s[..|s| - 1];
      assert f[..j] == s[..j] && f[j] == s[j];
      WellFormedPrefix(f, j);
    }
  }

  /** `ToRPN` succeeds only on balanced expressions and, on a balanced
      expression, fails only when the operator stack overflows. */
  lemma ConvertAcceptsBalanced(s: string, leftover: seq<char>)
    requires |leftover| <= OpStackSize
    ensures Convert(s, leftover).err.None? ==> Balanced(s)
    ensures Balanced(s) ==> Convert(s, leftover).err in {None, Some(ComplexExpression)}
  {
    var o := Convert(s, leftover);
    RunAgrees(s, 0, Start(leftover));
    if Balanced(s) && o.err.Some? && o.err != Some(MissingClose) {
      var j :| 0 <= j < |s| && FailsAt(s, j, o);
      WellFormedPrefix(s, j);
    }
  }

  /** Where and why `ToRPN` fails: an empty text, a byte offset within the
      expression, the end of the text for a missing `)`, and otherwise the
      offset of the first rune that breaks a rule or overflows the stack. */
  lemma ConvertReportsFirstError(s: string, leftover: seq<char>)
    requires |leftover| <= OpStackSize
    ensures var o := Convert(s, leftover);
      o.err.Some? ==> o.rpnText == "" && 0 <= o.wrongAt <= ByteLen(s)
    ensures var o := Convert(s, leftover);
      o.err == Some(MissingClose) ==> WellFormed(s) && Depth(s) > 0 && o.wrongAt == ByteLen(s)
    ensures var o := Convert(s, leftover);
      o.err.Some? && o.err != Some(MissingClose) ==> exists j :: 0 <= j < |s| && FailsAt(s, j, o)
  {
    var o := Convert(s, leftover);
    RunAgrees(s, 0, Start(leftover));
    if o.err.Some? && o.err != Some(MissingClose) {
      var j :| 0 <= j < |s| && FailsAt(s, j, o);
      ByteLenPrefix(s, j);
    }
  }

  /** Every rune of `t` is a digit or a point. */
  predicate AllNum(t: string)
  {
    forall k :: 0 <= k < |t| ==> IsNumChar(t[k])
  }

  /** When the final run of digits and points of `p` holds no point, a
      point at `i` is separated from the end of `p` by some other rune. */
  lemma {:induction false} PointOutsideRun(p: string, i: nat)
    requires i < |p| && p[i] == '.' && TrailingPoints(p) == 0
    ensures !AllNum(p[i..])
    decreases |p| - i
  {
    var last := p[|p| - 1];
    if !IsNumChar(last) {
      assert p[i..][|p| - 1 - i] == last;
    } else {
      var f := p[..|p| - 1];
      assert i < |f|;
      PointOutsideRun(f, i);
      var k :| 0 <= k < |f[i..]| && !IsNumChar(f[i..][k]);
      assert p[i..][k] == f[i..][k];
    }
  }

  /** In a well-formed text the count of open parentheses never drops below zero. */
  lemma {:induction false} DepthNonNegative(s: string, j: nat)
    requires WellFormed(s) && j <= |s|
    ensures Depth(s[..j]) >= 0
  {
    if j > 0 {
      DepthNonNegative(s, j - 1);
      WellFormedPrefix(s, j - 1);
      PrefixSnoc(s, j - 1);
    }
  }

  /** The placement rules of rpn.go lines 91-165 read off a well-formed
      text: the alphabet, what may precede `(`, `)`, an operator, a digit
      or a point. */
  lemma AcceptedPlacement(s: string)
    requires WellFormed(s)
    ensures forall j :: 0 <= j < |s| ==> s[j] == '(' || s[j] == ')' || IsOper(s[j]) || IsNumChar(s[j])
    ensures forall j :: 0 <= j < |s| && s[j] == '(' ==> j == 0 || s[j - 1] == '(' || IsOper(s[j - 1])
    ensures forall j :: 0 <= j < |s| && (s[j] == ')' || IsOper(s[j])) ==>
      j > 0 && (s[j - 1] == ')' || IsDigit(s[j - 1]))
    ensures forall j :: 0 < j < |s| && IsNumChar(s[j]) ==> s[j - 1] != ')'
  {
    forall j | 0 <= j < |s|
      ensures Violation(s[..j], s[j]).None?
      ensures LastRune(s[..j]) == if j == 0 then NoRune else s[j - 1]
    {
      WellFormedPrefix(s, j);
    }
  }

  /** Lines 144-153 read off a well-formed text: two points are always
      separated by a rune that is neither a digit nor a point, and the
      parenthesis count of every prefix is non-negative (lines 110-119). */
  lemma AcceptedPointsAndDepth(s: string)
    requires WellFormed(s)
    ensures forall i, j :: 0 <= i < j < |s| && s[i] == '.' && s[j] == '.' ==> !AllNum(s[i..j])
    ensures forall j :: 0 <= j <= |s| ==> Depth(s[..j]) >= 0
  {
    forall i, j | 0 <= i < j < |s| && s[i] == '.' && s[j] == '.'
      ensures !AllNum(s[i..j])
    {
      WellFormedPrefix(s, j);
      assert s[..j][i..] == s[i..j];
      PointOutsideRun(s[..j], i);
    }
    forall j | 0 <= j <= |s|
      ensures Depth(s[..j]) >= 0
    {
      DepthNonNegative(s, j);
    }
  }
}
