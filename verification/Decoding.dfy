/** Re-reading emitted code: how many operand bytes an instruction has, and what walking over
    the instructions of a loop to patch its breaks amounts to. */
module Decoding {
  import opened Basics
  import opened Values
  import opened Bytecode

  /** Operand bytes of every instruction but the closure instruction, as the compiler counts
      them. (The instruction that reads a parent method is counted as having none.) */
  function FixedArgs(op: byte): nat {
    if op == OP_CALL || op == OP_SUPER_INVOKE_SELF || op == OP_GET_INDEX
       || op == OP_GET_RANGED_INDEX then 1
    else if op == OP_DEFINE_GLOBAL || op == OP_GET_GLOBAL || op == OP_SET_GLOBAL
            || op == OP_GET_LOCAL || op == OP_SET_LOCAL || op == OP_GET_UP_VALUE
            || op == OP_SET_UP_VALUE || op == OP_JUMP_IF_FALSE || op == OP_JUMP
            || op == OP_BREAK_PL || op == OP_LOOP || op == OP_CONSTANT || op == OP_POP_N
            || op == OP_CLASS || op == OP_GET_PROPERTY || op == OP_GET_SELF_PROPERTY
            || op == OP_SET_PROPERTY || op == OP_LIST || op == OP_DICT || op == OP_CALL_IMPORT
            || op == OP_NATIVE_MODULE || op == OP_SELECT_NATIVE_IMPORT || op == OP_SWITCH
            || op == OP_METHOD || op == OP_EJECT_IMPORT || op == OP_EJECT_NATIVE_IMPORT
            || op == OP_SELECT_IMPORT then 2
    else if op == OP_INVOKE || op == OP_INVOKE_SELF || op == OP_SUPER_INVOKE
            || op == OP_CLASS_PROPERTY then 3
    else if op == OP_TRY then 6
    else 0
  }

  /** Operand bytes of the instruction at `ip`: a closure has three for each captured variable. */
  function ArgsCount(code: seq<byte>, consts: seq<Const>, ip: nat): nat
    requires ip < |code|
  {
    if code[ip] == OP_CLOSURE then
      if ip + 2 < |code| && ReadShort(code, ip + 1) < |consts| && consts[ReadShort(code, ip + 1)].Func?
      then 2 + 3 * consts[ReadShort(code, ip + 1)].upValueCount else 0
    else FixedArgs(code[ip])
  }

  /** An instruction with as many operand bytes as the decoder expects. */
  predicate RegularOp(consts: seq<Const>, op: byte, operands: seq<byte>) {
    if op == OP_CLOSURE then
      && |operands| >= 2 && ReadShort(operands, 0) < |consts| && consts[ReadShort(operands, 0)].Func?
      && |operands| == 2 + 3 * consts[ReadShort(operands, 0)].upValueCount
    else |operands| == FixedArgs(op)
  }

  /** Every instruction has the operand bytes the compiler counts for it, and none is a closure. */
  predicate Basic(c: Code) {
    match c
    case Nop => true
    case One(op, operands) => op != OP_CLOSURE && |operands| == FixedArgs(op)
    case Cat(a, b) => Basic(a) && Basic(b)
  }

  lemma {:induction false} BasicIsRegular(consts: seq<Const>, c: Code)
    requires Basic(c)
    ensures Regular(consts, c)
  {
    if c.Cat? {
      BasicIsRegular(consts, c.fst);
      BasicIsRegular(consts, c.snd);
    }
  }

  predicate Regular(consts: seq<Const>, c: Code) {
    match c
    case Nop => true
    case One(op, operands) => RegularOp(consts, op, operands)
    case Cat(a, b) => Regular(consts, a) && Regular(consts, b)
  }

  // ----- code as a list of instructions -----

  datatype Instr = Instr(op: byte, operands: seq<byte>)

  function Flat(c: Code): seq<Instr> {
    match c
    case Nop => []
    case One(op, operands) => [Instr(op, operands)]
    case Cat(a, b) => Flat(a) + Flat(b)
  }

  function Bytes(ins: seq<Instr>): seq<byte> {
    if ins == [] then [] else [ins[0].op] + ins[0].operands + Bytes(ins[1..])
  }

  function Patched(i: Instr, at: nat, end: int): Instr {
    if i.op == OP_BREAK_PL && |i.operands| == 2 then Instr(OP_JUMP, Short(end - at - 3)) else i
  }

  function PatchAll(ins: seq<Instr>, at: nat, end: int): seq<Instr> {
    if ins == [] then [] else [Patched(ins[0], at, end)] + PatchAll(ins[1..], at + 1 + |ins[0].operands|, end)
  }

  predicate Fits(i: Instr, at: nat, end: int) {
    i.op == OP_BREAK_PL && |i.operands| == 2 ==> 0 <= end - at - 3 < 65536
  }

  predicate FitAll(ins: seq<Instr>, at: nat, end: int) {
    if ins == [] then true else
    && Fits(ins[0], at, end)
    && FitAll(ins[1..], at + 1 + |ins[0].operands|, end)
  }

  predicate RegularAll(consts: seq<Const>, ins: seq<Instr>) {
    forall i :: 0 <= i < |ins| ==> RegularOp(consts, ins[i].op, ins[i].operands)
  }

  lemma {:induction false} BytesAppend(a: seq<Instr>, b: seq<Instr>)
    ensures Bytes(a + b) == Bytes(a) + Bytes(b)
  {
    if a == [] {
      assert a + b == b;
    } else {
      assert (a + b)[1..] == a[1..] + b;
      BytesAppend(a[1..], b);
    }
  }

  lemma {:induction false} PatchAllStep(ins: seq<Instr>, at: nat, end: int)
    ensures ins == [] ==> PatchAll(ins, at, end) == [] && FitAll(ins, at, end) && Bytes(ins) == []
    ensures ins != [] ==>
      && PatchAll(ins, at, end) == [Patched(ins[0], at, end)] + PatchAll(ins[1..], at + 1 + |ins[0].operands|, end)
      && FitAll(ins, at, end) == (Fits(ins[0], at, end) && FitAll(ins[1..], at + 1 + |ins[0].operands|, end))
      && |Bytes(ins)| == 1 + |ins[0].operands| + |Bytes(ins[1..])|
  {}

  lemma {:induction false} PatchAppend(a: seq<Instr>, b: seq<Instr>, at: nat, end: int)
    ensures PatchAll(a + b, at, end) == PatchAll(a, at, end) + PatchAll(b, at + |Bytes(a)|, end)
    ensures FitAll(a + b, at, end) == (FitAll(a, at, end) && FitAll(b, at + |Bytes(a)|, end))
    decreases |a|
  {
    hide PatchAll, FitAll, Bytes;
    PatchAllStep(a, at, end);
    if a == [] {
      assert a + b == b;
    } else {
      assert (a + b)[1..] == a[1..] + b;
      PatchAllStep(a + b, at, end);
      PatchAppend(a[1..], b, at + 1 + |a[0].operands|, end);
    }
  }

  lemma {:induction false} OneInstr(op: byte, operands: seq<byte>, at: nat, end: int)
    ensures var ins := [Instr(op, operands)]; var p := Patched(ins[0], at, end);
            && Bytes(ins) == [op] + operands && Bytes(PatchAll(ins, at, end)) == [p.op] + p.operands
            && FitAll(ins, at, end) == Fits(ins[0], at, end)
  {
    var ins := [Instr(op, operands)];
    assert ins[1..] == [];
    assert PatchAll(ins, at, end) == [Patched(ins[0], at, end)];
  }

  /** Walking the instruction list and patching the fragment are the same thing. */
  lemma {:induction false} FlatPatch(consts: seq<Const>, c: Code, at: nat, end: int)
    ensures Bytes(Flat(c)) == Encode(c)
    ensures Bytes(PatchAll(Flat(c), at, end)) == Encode(PatchBreaks(c, at, end))
    ensures FitAll(Flat(c), at, end) == PatchFits(c, at, end)
    ensures Regular(consts, c) ==> RegularAll(consts, Flat(c))
    decreases c
  {
    hide NoBreaks, RegularOp, FixedArgs, Bytes, PatchAll, FitAll;
    match c
    case Nop => PatchAllStep([], at, end);
    case One(op, operands) => OneInstr(op, operands, at, end);
    case Cat(a, b) =>
      FlatPatch(consts, a, at, end);
      FlatPatch(consts, b, at + Size(a), end);
      BytesAppend(Flat(a), Flat(b));
      PatchAppend(Flat(a), Flat(b), at, end);
      BytesAppend(PatchAll(Flat(a), at, end), PatchAll(Flat(b), at + Size(a), end));
  }

  /** The decoder agrees with the operand count of a regular instruction. */
  lemma {:induction false} ArgsCounted(code: seq<byte>, consts: seq<Const>, done: seq<byte>, i: Instr, rest: seq<byte>)
    requires code == done + ([i.op] + i.operands + rest) && RegularOp(consts, i.op, i.operands)
    ensures |done| < |code| && code[|done|] == i.op && ArgsCount(code, consts, |done|) == |i.operands|
  {
    if i.op == OP_CLOSURE {
      assert code[|done| + 1] == i.operands[0] && code[|done| + 2] == i.operands[1];
    }
  }
}
