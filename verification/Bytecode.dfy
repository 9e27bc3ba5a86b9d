/** The byte blob: opcodes, operand layout, and fragments of emitted code. */
module Bytecode {
  import opened Basics
  import opened Values

  // Opcode numbers are the ordinals of `b_code`.
  const OP_DEFINE_GLOBAL: byte := 0
  const OP_GET_GLOBAL: byte := 1
  const OP_SET_GLOBAL: byte := 2
  const OP_GET_LOCAL: byte := 3
  const OP_GET_UP_VALUE: byte := 4
  const OP_SET_LOCAL: byte := 5
  const OP_SET_UP_VALUE: byte := 6
  const OP_CLOSE_UP_VALUE: byte := 7
  const OP_GET_PROPERTY: byte := 8
  const OP_GET_SELF_PROPERTY: byte := 9
  const OP_SET_PROPERTY: byte := 10
  const OP_JUMP_IF_FALSE: byte := 11
  const OP_JUMP: byte := 12
  const OP_LOOP: byte := 13
  const OP_EQUAL: byte := 14
  const OP_GREATER: byte := 15
  const OP_LESS: byte := 16
  const OP_EMPTY: byte := 17
  const OP_NIL: byte := 18
  const OP_TRUE: byte := 19
  const OP_FALSE: byte := 20
  const OP_ADD: byte := 21
  const OP_SUBTRACT: byte := 22
  const OP_MULTIPLY: byte := 23
  const OP_DIVIDE: byte := 24
  const OP_F_DIVIDE: byte := 25
  const OP_REMINDER: byte := 26
  const OP_POW: byte := 27
  const OP_NEGATE: byte := 28
  const OP_NOT: byte := 29
  const OP_BIT_NOT: byte := 30
  const OP_AND: byte := 31
  const OP_OR: byte := 32
  const OP_XOR: byte := 33
  const OP_LSHIFT: byte := 34
  const OP_RSHIFT: byte := 35
  const OP_ONE: byte := 36
  const OP_CONSTANT: byte := 37
  const OP_ECHO: byte := 38
  const OP_POP: byte := 39
  const OP_DUP: byte := 40
  const OP_POP_N: byte := 41
  const OP_ASSERT: byte := 42
  const OP_DIE: byte := 43
  const OP_CLOSURE: byte := 44
  const OP_CALL: byte := 45
  const OP_INVOKE: byte := 46
  const OP_INVOKE_SELF: byte := 47
  const OP_RETURN: byte := 48
  const OP_CLASS: byte := 49
  const OP_METHOD: byte := 50
  const OP_CLASS_PROPERTY: byte := 51
  const OP_INHERIT: byte := 52
  const OP_GET_SUPER: byte := 53
  const OP_SUPER_INVOKE: byte := 54
  const OP_SUPER_INVOKE_SELF: byte := 55
  const OP_RANGE: byte := 56
  const OP_LIST: byte := 57
  const OP_DICT: byte := 58
  const OP_GET_INDEX: byte := 59
  const OP_GET_RANGED_INDEX: byte := 60
  const OP_SET_INDEX: byte := 61
  const OP_CALL_IMPORT: byte := 62
  const OP_NATIVE_MODULE: byte := 63
  const OP_SELECT_IMPORT: byte := 64
  const OP_SELECT_NATIVE_IMPORT: byte := 65
  const OP_IMPORT_ALL_NATIVE: byte := 66
  const OP_EJECT_IMPORT: byte := 67
  const OP_EJECT_NATIVE_IMPORT: byte := 68
  const OP_IMPORT_ALL: byte := 69
  const OP_TRY: byte := 70
  const OP_POP_TRY: byte := 71
  const OP_PUBLISH_TRY: byte := 72
  const OP_STRINGIFY: byte := 73
  const OP_SWITCH: byte := 74
  const OP_CHOICE: byte := 75
  const OP_BREAK_PL: byte := 76

  /** An entry of the constant pool: a value, a `using` jump table, or a function,
      of which only the number of captured variables is visible to the decoder. */
  datatype Const =
    | Val(v: Value)
    | Switch(table: map<Value, nat>, defaultJump: int, exitJump: nat)
    | Func(upValueCount: nat)

  /** Big-endian operand, truncated to 16 bits as the emitter truncates it. */
  function Short(n: int): (s: seq<byte>)
    ensures |s| == 2
  {
    [n / 256 % 256, n % 256]
  }

  function ReadShort(code: seq<byte>, at: nat): (n: nat)
    requires at + 1 < |code|
    ensures n < 65536
  {
    (code[at] as int) * 256 + code[at + 1] as int
  }

  lemma ShortRoundTrip(n: nat)
    requires n < 65536
    ensures (Short(n)[0] as int) * 256 + Short(n)[1] as int == n
  {
    assert n / 256 < 256;
  }

  /** A fragment of code: one instruction (opcode and operand bytes), or two
      fragments one after the other. */
  datatype Code =
    | Nop
    | One(op: byte, operands: seq<byte>)
    | Cat(fst: Code, snd: Code)

  function Size(c: Code): nat {
    match c
    case Nop => 0
    case One(_, operands) => 1 + |operands|
    case Cat(a, b) => Size(a) + Size(b)
  }

  function Op(op: byte): (c: Code)
    ensures Size(c) == 1 && NoBreaks(c)
  {
    One(op, [])
  }

  function Op16(op: byte, n: int): (c: Code)
    ensures Size(c) == 3 && NoBreaks(c) == (op != OP_BREAK_PL)
  {
    One(op, Short(n))
  }

  function Join(a: Code, b: Code): (c: Code)
    ensures c == Cat(a, b) && Size(c) == Size(a) + Size(b)
    ensures NoBreaks(c) == (NoBreaks(a) && NoBreaks(b))
  {
    Cat(a, b)
  }

  function Encode(c: Code): (s: seq<byte>)
    ensures |s| == Size(c)
  {
    match c
    case Nop => []
    case One(op, operands) => [op] + operands
    case Cat(a, b) => Encode(a) + Encode(b)
  }

  lemma {:induction false} EncodeJoin(a: Code, b: Code)
    ensures Encode(Join(a, b)) == Encode(a) + Encode(b)
  {}

  lemma {:induction false} EncodeOp(op: byte)
    ensures Encode(Op(op)) == [op]
  {}

  lemma {:induction false} EncodeOp16(op: byte, n: int)
    ensures Encode(Op16(op, n)) == [op] + Short(n)
  {}

  /** `c` sits in `code` at byte `at`. */
  ghost predicate CodeAt(code: seq<byte>, at: nat, c: Code)
    decreases c
  {
    match c
    case Nop => true
    case One(op, operands) =>
      && at + |operands| < |code|
      && code[at] == op
      && forall j :: 0 <= j < |operands| ==> code[at + 1 + j] == operands[j]
    case Cat(a, b) => CodeAt(code, at, a) && CodeAt(code, at + Size(a), b)
  }

  lemma {:induction false} EncodedSits(code: seq<byte>, at: nat, c: Code)
    requires at + Size(c) <= |code| && code[at..at + Size(c)] == Encode(c)
    ensures CodeAt(code, at, c)
    decreases c
  {
    match c
    case Nop =>
    case One(op, operands) =>
      var here := code[at..at + Size(c)];
      assert here[0] == op;
      forall j | 0 <= j < |operands| ensures code[at + 1 + j] == operands[j] {
        assert here[1 + j] == operands[j];
      }
    case Cat(a, b) =>
      var here := code[at..at + Size(c)];
      assert code[at..at + Size(a)] == here[..Size(a)];
      assert code[at + Size(a)..at + Size(a) + Size(b)] == here[Size(a)..];
      EncodedSits(code, at, a);
      EncodedSits(code, at + Size(a), b);
  }

  lemma OperandAt(code: seq<byte>, at: nat, op: byte, n: nat)
    requires CodeAt(code, at, Op16(op, n)) && n < 65536
    ensures at + 2 < |code| && code[at] == op && ReadShort(code, at + 1) == n
  {
    var s := Short(n);
    assert code[at + 1 + 0] == s[0] && code[at + 1 + 1] == s[1];
    ShortRoundTrip(n);
  }

  // ----- break placeholders -----

  /** Every break placeholder in `c`, which starts at byte `at`, becomes a jump to `end`. */
  function PatchBreaks(c: Code, at: nat, end: int): (r: Code)
    ensures Size(r) == Size(c) && NoBreaks(r)
    decreases c
  {
    match c
    case Nop => c
    case One(op, operands) =>
      if op == OP_BREAK_PL && |operands| == 2 then Op16(OP_JUMP, end - at - 3) else c
    case Cat(a, b) => Cat(PatchBreaks(a, at, end), PatchBreaks(b, at + Size(a), end))
  }

  /** Each of those jumps fits its operand. */
  predicate PatchFits(c: Code, at: nat, end: int)
    decreases c
  {
    match c
    case Nop => true
    case One(op, operands) =>
      op == OP_BREAK_PL && |operands| == 2 ==> 0 <= end - at - 3 < 65536
    case Cat(a, b) => PatchFits(a, at, end) && PatchFits(b, at + Size(a), end)
  }

  predicate NoBreaks(c: Code) {
    match c
    case Nop => true
    case One(op, operands) => op != OP_BREAK_PL || |operands| != 2
    case Cat(a, b) => NoBreaks(a) && NoBreaks(b)
  }

  lemma {:induction false} PatchJoin(a: Code, b: Code, at: nat, brk: int)
    ensures PatchBreaks(Join(a, b), at, brk) == Cat(PatchBreaks(a, at, brk), PatchBreaks(b, at + Size(a), brk))
    ensures PatchFits(Join(a, b), at, brk) == (PatchFits(a, at, brk) && PatchFits(b, at + Size(a), brk))
  {}

  /** Code without placeholders is left alone: an enclosing loop never touches a break
      that an inner loop has already claimed. */
  lemma {:induction false} PatchLeavesAlone(c: Code, at: nat, end: int)
    requires NoBreaks(c)
    ensures PatchBreaks(c, at, end) == c && PatchFits(c, at, end)
    decreases c
  {
    hide Size, Op16;
    if c.Cat? {
      PatchLeavesAlone(c.fst, at, end);
      PatchLeavesAlone(c.snd, at + Size(c.fst), end);
    }
  }
}
