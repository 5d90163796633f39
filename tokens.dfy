/** Character classes, operator priorities and the small sequence helpers
    shared by the converter and the evaluator (rpn.go lines 10-13 and 41-71). */
module Tokens {

  /** OP_STACK_SIZE: capacity of the operator stack. */
  const OpStackSize: nat := 256

  /** NUM_STACK_SIZE: capacity of the evaluator's operand stack. */
  const NumStackSize: nat := 32

  /** The zero rune, the value `prevRune` holds before the first character. */
  const NoRune: char := 0 as char

  /** `left_assoc`: `+ - * /`. None of them is right-associative, and none
      is a digit, a point or a parenthesis. */
  predicate LeftAssoc(op: char): (r: bool)
    ensures r ==> !RightAssoc(op) && !IsDigit(op) && op != '.' && op != '(' && op != ')'
  {
    op == '+' || op == '-' || op == '*' || op == '/'
  }

  /** `right_assoc`: `%` and `^`. Neither is a digit, a point or a
      parenthesis. */
  predicate RightAssoc(op: char): (r: bool)
    ensures r ==> !IsDigit(op) && op != '.' && op != '(' && op != ')'
  {
    op == '%' || op == '^'
  }

  /** `is_oper`: the six binary operators, each in exactly one associativity class. */
  predicate IsOper(op: char): (r: bool)
    ensures r <==> LeftAssoc(op) || RightAssoc(op)
    ensures !(LeftAssoc(op) && RightAssoc(op))
  {
    op == '+' || op == '-' || op == '*' || op == '/' || op == '^' || op == '%'
  }

  /** `is_digit`: the ASCII digits, which are neither a point nor a
      parenthesis and take one byte each. */
  predicate IsDigit(c: char): (r: bool)
    ensures r ==> c != '.' && c != '(' && c != ')' && Utf8Size(c) == 1
  {
    '0' <= c <= '9'
  }

  /** A character the number scanner accepts: a digit or a decimal point. */
  predicate IsNumChar(c: char)
  {
    c == '.' || IsDigit(c)
  }

  /** `priority`: 1 for `+ -`, 2 for `* /`, 3 for `% ^`, -1 for anything else
      (in particular for `(`). Only operators have a positive priority, none
      exceeds 3, and exactly the right-associative ones have the top one. */
  function Priority(op: char): (p: int)
    ensures p == -1 <==> !IsOper(op)
    ensures IsOper(op) ==> 1 <= p <= 3
    ensures p == 3 <==> RightAssoc(op)
  {
    if op == '+' || op == '-' then 1
    else if op == '*' || op == '/' then 2
    else if op == '%' || op == '^' then 3
    else -1
  }

  /** Number of bytes of the UTF-8 encoding of `c`, the `size` that
      `strings.Reader.ReadRune` reports for it. Every character the grammar
      knows is one byte long. */
  function Utf8Size(c: char): (n: nat)
    ensures 1 <= n <= 4
    ensures n == 1 <==> c as int < 0x80
  {
    if c as int < 0x80 then 1
    else if c as int < 0x800 then 2
    else if c as int < 0x1_0000 then 3
    else 4
  }

  /** The byte length of the UTF-8 encoding of `s` (Go's `len` of the string). */
  function ByteLen(s: string): (n: nat)
    ensures |s| <= n <= 4 * |s|
  {
    if s == [] then 0 else ByteLen(s[..|s| - 1]) + Utf8Size(s[|s| - 1])
  }

  /** The byte offset of a character never exceeds the byte length of the text. */
  lemma {:induction false} ByteLenPrefix(s: string, j: nat)
    requires j <= |s|
    ensures ByteLen(s[..j]) <= ByteLen(s)
    decreases |s| - j
  {
    if j < |s| {
      assert s[..j + 1][..j] == s[..j];
      ByteLenPrefix(s, j + 1);
    } else {
      assert s[..j] == s;
    }
  }

  /** Number of occurrences of `c` in `s`. */
  function Count(s: seq<char>, c: char): nat
  {
    if s == [] then 0 else Count(s[..|s| - 1], c) + (if s[|s| - 1] == c then 1 else 0)
  }

  lemma {:induction false} CountAppend(s: seq<char>, t: seq<char>, c: char)
    ensures Count(s + t, c) == Count(s, c) + Count(t, c)
    decreases |t|
  {
    if t == [] {
      assert s + t == s;
    } else {
      assert (s + t)[..|s + t| - 1] == s + t[..|t| - 1];
      CountAppend(s, t[..|t| - 1], c);
    }
  }

  lemma {:induction false} CountPositive(s: seq<char>, c: char)
    ensures Count(s, c) > 0 <==> c in s
    decreases |s|
  {
    if s != [] {
      CountPositive(s[..|s| - 1], c);
      assert s == s[..|s| - 1] + [s[|s| - 1]];
    }
  }

  /** `s` read from its last element to its first: the order in which
      entries leave a stack whose top is at the end of `s`. */
  function Reversed(s: seq<char>): (r: seq<char>)
    ensures |r| == |s|
  {
    if s == [] then [] else [s[|s| - 1]] + Reversed(s[..|s| - 1])
  }

  lemma {:induction false} ReversedCount(s: seq<char>, c: char)
    ensures Count(Reversed(s), c) == Count(s, c)
    decreases |s|
  {
    if s != [] {
      ReversedCount(s[..|s| - 1], c);
      CountAppend([s[|s| - 1]], Reversed(s[..|s| - 1]), c);
      assert [s[|s| - 1]][..0] == [];
    }
  }

  /** Popping the top of a stack and then the rest reads the same as popping
      the whole stack: `Reversed(p + [x])` is `[x] + Reversed(p)`. */
  lemma ReversedSnoc(p: seq<char>, x: char)
    ensures Reversed(p + [x]) == [x] + Reversed(p)
  {
    assert (p + [x])[..|p + [x]| - 1] == p;
  }

  /** The digits and decimal points of `s`, in order. */
  function NumChars(s: string): (r: string)
    ensures forall k :: 0 <= k < |r| ==> IsNumChar(r[k])
  {
    if s == [] then []
    else NumChars(s[..|s| - 1]) + (if IsNumChar(s[|s| - 1]) then [s[|s| - 1]] else [])
  }

  lemma {:induction false} NumCharsAppend(s: string, t: string)
    ensures NumChars(s + t) == NumChars(s) + NumChars(t)
    decreases |t|
  {
    if t == [] {
      assert s + t == s;
    } else {
      assert (s + t)[..|s + t| - 1] == s + t[..|t| - 1];
      NumCharsAppend(s, t[..|t| - 1]);
    }
  }
}
