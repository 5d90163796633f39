/** The package-level operator stack of rpn.go (lines 15-39): a fixed array of
    OP_STACK_SIZE bytes and the index of its top entry, `stack_ptr`, which is
    -1 when the stack is empty. The object outlives every call of the
    converter, exactly as the Go globals do. */
module OpStack {
  import opened Tokens

  /** `byte(op)`: Go keeps only the low eight bits of a pushed rune. */
  function ByteOf(op: char): (b: char)
    ensures b as int < 256
    ensures op as int < 256 ==> b == op
  {
    (op as int % 256) as char
  }

  class OperatorStack {
    var stack: array<char>
    var stackPtr: int

    ghost predicate Valid()
      reads this
    {
      stack.Length == OpStackSize && -1 <= stackPtr < OpStackSize
    }

    /** The entries from bottom to top. */
    ghost function Contents(): (s: seq<char>)
      reads this, stack
      requires Valid()
      ensures |s| <= OpStackSize
    {
      stack[..stackPtr + 1]
    }

    /** Program start: `stack_ptr = -1`, the array zero-filled. */
    constructor ()
      ensures Valid() && fresh(stack) && Contents() == []
    {
      stack := new char[OpStackSize](_ => NoRune);
      stackPtr := -1;
    }

    /** `push`: callers check `stack_is_full` first (lines 97 and 137). */
    method Push(op: char)
      requires Valid() && |Contents()| < OpStackSize
      modifies this, stack
      ensures Valid() && stack == old(stack)
      ensures Contents() == old(Contents()) + [ByteOf(op)]
    {
      stackPtr := stackPtr + 1;
      stack[stackPtr] := ByteOf(op);
    }

    /** `pop`: callers pop only a non-empty stack (lines 113-117, 131-135, 175-177). */
    method Pop()
      requires Valid() && Contents() != []
      modifies this
      ensures Valid() && stack == old(stack)
      ensures Contents() == old(Contents())[..|old(Contents())| - 1]
    {
      stackPtr := stackPtr - 1;
    }

    /** `head`: the top entry. */
    function Head(): (r: char)
      reads this, stack
      requires Valid() && Contents() != []
      ensures r == Contents()[|Contents()| - 1]
    {
      stack[stackPtr]
    }

    /** `stack_is_full`. */
    function IsFull(): (r: bool)
      reads this, stack
      requires Valid()
      ensures r <==> |Contents()| == OpStackSize
    {
      stackPtr + 1 >= OpStackSize
    }

    /** `stack_not_empty`. */
    function NotEmpty(): (r: bool)
      reads this, stack
      requires Valid()
      ensures r <==> Contents() != []
    {
      stackPtr >= 0
    }
  }
}
