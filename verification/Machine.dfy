/** The dispatch loop of the virtual machine over one call frame, byte by byte. */
module Machine {
  import opened Basics
  import opened Values
  import opened Bytecode

  datatype Program = Program(code: seq<byte>, consts: seq<Const>)

  /** The frame's slots and temporaries form one stack, top last. `Stuck` stands for reading
      outside the code, the stack or the constants, which the machine does not check. */
  datatype State =
    | Running(ip: nat, stack: seq<Value>, globals: map<string, Value>, echoed: seq<Value>)
    | Halted(v: Value, globals: map<string, Value>, echoed: seq<Value>)
    | Errored(globals: map<string, Value>, echoed: seq<Value>)
    | Stuck

  function Peek(stack: seq<Value>, n: nat): Value
    requires n < |stack|
  {
    stack[|stack| - 1 - n]
  }

  function Drop(stack: seq<Value>, n: nat): seq<Value>
    requires n <= |stack|
  {
    stack[..|stack| - n]
  }

  /** The binary instructions; comparison and subtraction accept only numbers and booleans. */
  predicate IsBinary(op: byte) {
    op == OP_ADD || op == OP_SUBTRACT || op == OP_MULTIPLY || op == OP_DIVIDE || op == OP_F_DIVIDE
    || op == OP_REMINDER || op == OP_POW || op == OP_AND || op == OP_OR || op == OP_XOR
    || op == OP_LSHIFT || op == OP_RSHIFT || op == OP_EQUAL || op == OP_GREATER || op == OP_LESS
    || op == OP_RANGE
  }

  function HostKey(op: byte): int {
    if op == OP_ADD then 0 else if op == OP_MULTIPLY then 1 else if op == OP_DIVIDE then 2
    else if op == OP_REMINDER then 3 else if op == OP_POW then 4 else if op == OP_F_DIVIDE then 5
    else if op == OP_AND then 6 else if op == OP_OR then 7 else if op == OP_XOR then 8
    else if op == OP_LSHIFT then 9 else if op == OP_RSHIFT then 10 else 11
  }

  function BinaryOp(w: World, op: byte, a: Value, b: Value): Option<Value> {
    if op == OP_EQUAL then Some(Bool(a == b))
    else if op == OP_RANGE then
      if a.Number? && b.Number? then w.arith(HostKey(op), a, b) else None
    else if !Numeric(a) || !Numeric(b) then
      if op == OP_ADD || op == OP_MULTIPLY then w.arith(HostKey(op), a, b) else None
    else if op == OP_ADD then Some(Number(AsReal(a) + AsReal(b)))
    else if op == OP_SUBTRACT then Some(Number(AsReal(a) - AsReal(b)))
    else if op == OP_MULTIPLY then Some(Number(AsReal(a) * AsReal(b)))
    else if op == OP_GREATER then Some(Bool(AsReal(a) > AsReal(b)))
    else if op == OP_LESS then Some(Bool(AsReal(a) < AsReal(b)))
    else w.arith(HostKey(op), a, b)
  }

  predicate IsUnary(op: byte) { op == OP_NEGATE || op == OP_NOT || op == OP_BIT_NOT }

  function UnaryOp(w: World, op: byte, a: Value): Option<Value> {
    if op == OP_NOT then Some(Bool(IsFalse(w, a)))
    else if !a.Number? then None
    else if op == OP_NEGATE then Some(Number(-a.n))
    else Some(Number(w.bitNot(a.n)))
  }

  predicate IsPush(op: byte) {
    op == OP_ONE || op == OP_NIL || op == OP_EMPTY || op == OP_TRUE || op == OP_FALSE
  }

  function Pushed(op: byte): Value {
    if op == OP_ONE then Number(1.0)
    else if op == OP_NIL then Nil
    else if op == OP_EMPTY then Empty
    else Bool(op == OP_TRUE)
  }

  /** An instruction without operands, already fetched. */
  function StepOp(w: World, op: byte, s: State): State
    requires s.Running?
  {
    var h := |s.stack|;
    var next := s.ip + 1;
    if IsPush(op) then s.(ip := next, stack := s.stack + [Pushed(op)])
    else if h == 0 then Stuck
    else if op == OP_POP then s.(ip := next, stack := Drop(s.stack, 1))
    else if op == OP_ECHO then
      s.(ip := next, stack := Drop(s.stack, 1), echoed := s.echoed + [Peek(s.stack, 0)])
    else if op == OP_RETURN then Halted(Peek(s.stack, 0), s.globals, s.echoed)
    else if IsUnary(op) then
      (match UnaryOp(w, op, Peek(s.stack, 0))
       case None => Errored(s.globals, s.echoed)
       case Some(v) => s.(ip := next, stack := Drop(s.stack, 1) + [v]))
    else if !IsBinary(op) || h == 1 then Stuck
    else
      match BinaryOp(w, op, Peek(s.stack, 1), Peek(s.stack, 0))
      case None => Errored(s.globals, s.echoed)
      case Some(v) => s.(ip := next, stack := Drop(s.stack, 2) + [v])
  }

  /** An instruction with a 16-bit operand, already fetched. */
  function StepOp16(w: World, p: Program, op: byte, n: nat, s: State): State
    requires s.Running?
  {
    var h := |s.stack|;
    var next := s.ip + 3;
    if op == OP_CONSTANT then
      if n < |p.consts| && p.consts[n].Val? then s.(ip := next, stack := s.stack + [p.consts[n].v]) else Stuck
    else if op == OP_GET_LOCAL then
      if n < h then s.(ip := next, stack := s.stack + [s.stack[n]]) else Stuck
    else if op == OP_GET_GLOBAL then
      if n < |p.consts| && p.consts[n].Val? && p.consts[n].v.Str? then
        var x := p.consts[n].v.s;
        if x in s.globals then s.(ip := next, stack := s.stack + [s.globals[x]])
        else if x in w.builtins then s.(ip := next, stack := s.stack + [w.builtins[x]])
        else Errored(s.globals, s.echoed)
      else Stuck
    else if op == OP_JUMP then s.(ip := next + n)
    else if op == OP_LOOP then if n <= next then s.(ip := next - n) else Stuck
    else if h == 0 then Stuck
    else if op == OP_JUMP_IF_FALSE then
      s.(ip := if IsFalse(w, Peek(s.stack, 0)) then next + n else next)
    else if op == OP_SET_LOCAL then
      if Peek(s.stack, 0) == Empty then Errored(s.globals, s.echoed)
      else if n < h then s.(ip := next, stack := s.stack[n := Peek(s.stack, 0)])
      else Stuck
    else if op == OP_SET_GLOBAL then
      if Peek(s.stack, 0) == Empty then Errored(s.globals, s.echoed)
      else if n < |p.consts| && p.consts[n].Val? && p.consts[n].v.Str? then
        var x := p.consts[n].v.s;
        if x in s.globals then s.(ip := next, globals := s.globals[x := Peek(s.stack, 0)])
        else Errored(s.globals, s.echoed)
      else Stuck
    else if op == OP_SWITCH then
      if n < |p.consts| && p.consts[n].Switch? then
        var sw := p.consts[n];
        var v := Peek(s.stack, 0);
        var jump := if v in sw.table then sw.table[v]
                    else if sw.defaultJump != -1 then sw.defaultJump
                    else sw.exitJump;
        if next + jump >= 0 then s.(ip := next + jump, stack := Drop(s.stack, 1)) else Stuck
      else Stuck
    else Stuck
  }

  predicate HasOperand(op: byte) {
    op == OP_CONSTANT || op == OP_GET_LOCAL || op == OP_SET_LOCAL || op == OP_GET_GLOBAL
    || op == OP_SET_GLOBAL || op == OP_JUMP || op == OP_JUMP_IF_FALSE || op == OP_LOOP
    || op == OP_SWITCH
  }

  /** One turn of the dispatch loop; a call that has ended stays ended. */
  function Step(w: World, p: Program, s: State): State {
    if !s.Running? then s
    else if s.ip >= |p.code| then Stuck
    else
      var op := p.code[s.ip];
      if !HasOperand(op) then StepOp(w, op, s)
      else if s.ip + 2 >= |p.code| then Stuck
      else StepOp16(w, p, op, ReadShort(p.code, s.ip + 1), s)
  }

  function Steps(w: World, p: Program, s: State, n: nat): State
    decreases n
  {
    if n == 0 then s else Steps(w, p, Step(w, p, s), n - 1)
  }

  lemma {:induction false} StepsAdd(w: World, p: Program, s: State, m: nat, n: nat)
    ensures Steps(w, p, s, m + n) == Steps(w, p, Steps(w, p, s, m), n)
    decreases m
  {
    if m > 0 { StepsAdd(w, p, Step(w, p, s), m - 1, n); }
  }

  lemma {:induction false} EndedStays(w: World, p: Program, s: State, n: nat)
    requires !s.Running?
    ensures Steps(w, p, s, n) == s
  {
    if n > 0 { EndedStays(w, p, s, n - 1); }
  }
}
