/** The single-pass compiler: it reads tokens and writes bytes, builds no tree, and
    back-patches the jumps it could not yet resolve. */
module Compiler {
  import opened Basics
  import opened Values
  import opened Bytecode
  import opened Syntax
  import opened Codegen
  import opened Grammar
  import opened Decoding
  import opened Emission

  // ----- how fragments are laid down -----

  lemma {:induction false} EncodeAnd(a: Code, b: Code)
    ensures Encode(AndCode(a, b)) == Encode(a) + Encode(Op16(OP_JUMP_IF_FALSE, 1 + Size(b))) + ([OP_POP] + Encode(b))
  {
    hide Encode, Join, Op, Op16;
    var test, arm := Op16(OP_JUMP_IF_FALSE, 1 + Size(b)), Join(Op(OP_POP), b);
    EncodeJoin(a, Join(test, arm));
    EncodeJoin(test, arm);
    EncodeJoin(Op(OP_POP), b);
    EncodeOp(OP_POP);
  }

  lemma {:induction false} EncodeOr(a: Code, b: Code)
    ensures Encode(OrCode(a, b)) == Encode(a) + Encode(Op16(OP_JUMP_IF_FALSE, 3))
                                  + (Encode(Op16(OP_JUMP, 1 + Size(b))) + ([OP_POP] + Encode(b)))
  {
    hide Encode, Join, Op, Op16;
    var test, skip, arm := Op16(OP_JUMP_IF_FALSE, 3), Op16(OP_JUMP, 1 + Size(b)), Join(Op(OP_POP), b);
    EncodeJoin(a, Join(test, Join(skip, arm)));
    EncodeJoin(test, Join(skip, arm));
    EncodeJoin(skip, arm);
    EncodeJoin(Op(OP_POP), b);
    EncodeOp(OP_POP);
  }

  lemma {:induction false} EncodeBranch(a: Code, b: Code, d: Code)
    ensures Encode(Branch(a, b, d)) == Encode(a) + Encode(Op16(OP_JUMP_IF_FALSE, 4 + Size(b)))
              + ([OP_POP] + Encode(b) + Encode(Op16(OP_JUMP, 1 + Size(d))) + ([OP_POP] + Encode(d)))
  {
    hide Encode, Join, Op, Op16;
    var test, skip, arm := Op16(OP_JUMP_IF_FALSE, 4 + Size(b)), Op16(OP_JUMP, 1 + Size(d)), Join(Op(OP_POP), d);
    var arms := Join(Op(OP_POP), Join(b, Join(skip, arm)));
    EncodeJoin(a, Join(test, arms));
    EncodeJoin(test, arms);
    EncodeJoin(Op(OP_POP), Join(b, Join(skip, arm)));
    EncodeJoin(b, Join(skip, arm));
    EncodeJoin(skip, arm);
    EncodeJoin(Op(OP_POP), d);
    EncodeOp(OP_POP);
  }

  lemma {:induction false} EmitsMeans(code: seq<byte>, consts: seq<Const>, o: Out, code': seq<byte>, consts': seq<Const>)
    requires Emits(code, consts, o, code', consts')
    ensures code' == code + Encode(o.code) && consts' == consts + o.consts
  {}

  lemma {:induction false} AndLaid(code: seq<byte>, consts: seq<Const>, a: Out, b: Out)
    ensures Emits(code, consts, AndOut(a, b),
                  code + Encode(a.code) + Encode(Op16(OP_JUMP_IF_FALSE, 1 + Size(b.code))) + ([OP_POP] + Encode(b.code)),
                  consts + a.consts + b.consts)
  {
    hide Encode, AndCode, Op16, Size;
    EncodeAnd(a.code, b.code);
    assert consts + a.consts + b.consts == consts + (a.consts + b.consts);
  }

  lemma {:induction false} OrLaid(code: seq<byte>, consts: seq<Const>, a: Out, b: Out)
    ensures Emits(code, consts, OrOut(a, b),
                  code + Encode(a.code) + Encode(Op16(OP_JUMP_IF_FALSE, 3)) + Encode(Op16(OP_JUMP, 1 + Size(b.code))) + ([OP_POP] + Encode(b.code)),
                  consts + a.consts + b.consts)
  {
    hide Encode, OrCode, Op16, Size;
    EncodeOr(a.code, b.code);
    assert consts + a.consts + b.consts == consts + (a.consts + b.consts);
  }

  lemma {:induction false} BinaryOk(a: Out, b: Out, op: BinOp)
    ensures BinaryOut(a, b, BinCode(op)).ok == (a.ok && b.ok)
  {}

  lemma {:induction false} BinaryLaid(code: seq<byte>, consts: seq<Const>, a: Out, b: Out, op: BinOp)
    ensures Emits(code, consts, BinaryOut(a, b, BinCode(op)), code + Encode(a.code) + Encode(b.code) + Encode(BinCode(op)),
                  consts + a.consts + b.consts)
  {
    hide Encode, Join, BinCode;
    EncodeJoin(a.code, Join(b.code, BinCode(op)));
    EncodeJoin(b.code, BinCode(op));
    assert consts + a.consts + b.consts == consts + (a.consts + b.consts);
  }

  lemma {:induction false} CondLaid(code: seq<byte>, consts: seq<Const>, c: Out, a: Out, d: Out)
    ensures Emits(code, consts, BranchOut(c, a, d),
              code + Encode(c.code) + Encode(Op16(OP_JUMP_IF_FALSE, 4 + Size(a.code))) + ([OP_POP] + Encode(a.code))
                + Encode(Op16(OP_JUMP, 1 + Size(d.code))) + ([OP_POP] + Encode(d.code)),
              consts + c.consts + a.consts + d.consts)
    ensures BranchOut(c, a, d).ok == (c.ok && a.ok && d.ok && 4 + Size(a.code) <= MAX_OPERAND && 1 + Size(d.code) <= MAX_OPERAND)
  {
    hide Encode, Branch, Op16, Size;
    EncodeBranch(c.code, a.code, d.code);
    assert consts + c.consts + a.consts + d.consts == consts + (c.consts + a.consts + d.consts);
  }

  lemma {:induction false} BranchOk(c: Out, a: Out, d: Out)
    ensures BranchOut(c, a, d).ok == (c.ok && a.ok && d.ok && 4 + Size(a.code) <= MAX_OPERAND && 1 + Size(d.code) <= MAX_OPERAND)
  {}

  lemma {:induction false} EncodeBin(op: BinOp)
    ensures Encode(BinCode(op)) ==
      if op.Ne? then [OP_EQUAL, OP_NOT] else if op.Ge? then [OP_LESS, OP_NOT]
      else if op.Le? then [OP_GREATER, OP_NOT] else [BinByte(op)]
  {
    hide Join, Encode;
    match op
    case Ne => EncodeJoin(Op(OP_EQUAL), Op(OP_NOT)); EncodeOp(OP_EQUAL); EncodeOp(OP_NOT);
    case Ge => EncodeJoin(Op(OP_LESS), Op(OP_NOT)); EncodeOp(OP_LESS); EncodeOp(OP_NOT);
    case Le => EncodeJoin(Op(OP_GREATER), Op(OP_NOT)); EncodeOp(OP_GREATER); EncodeOp(OP_NOT);
    case _ => EncodeOp(BinByte(op));
  }

  /** The instruction of an operator that has one of its own. */
  function BinByte(op: BinOp): byte {
    match op
    case Add => OP_ADD case Sub => OP_SUBTRACT case Mul => OP_MULTIPLY case Div => OP_DIVIDE
    case Rem => OP_REMINDER case Pow => OP_POW case FloorDiv => OP_F_DIVIDE
    case Eq => OP_EQUAL case Ne => OP_EQUAL case Gt => OP_GREATER case Ge => OP_LESS
    case Lt => OP_LESS case Le => OP_GREATER
    case BitAnd => OP_AND case BitOr => OP_OR case BitXor => OP_XOR
    case Shl => OP_LSHIFT case Shr => OP_RSHIFT case Range => OP_RANGE
  }

  // ----- trees that contain a faulty part are faulty -----

  lemma {:induction false} FaultSpreads(op: BinOp, left: Expr, a: Expr, b: Expr, locals: seq<Local>, k: nat)
    requires !GenExpr(left, locals, k).ok
    ensures !GenExpr(Binary(op, left, a), locals, k).ok && !GenExpr(And(left, a), locals, k).ok
    ensures !GenExpr(Or(left, a), locals, k).ok && !GenExpr(Cond(left, a, b), locals, k).ok
  {
    hide GenExpr, AndCode, OrCode, Branch, Join, BinCode, Size;
    GenBinary(op, left, a, locals, k);
    GenAnd(left, a, locals, k);
    GenOr(left, a, locals, k);
    GenCond(left, a, b, locals, k);
  }

  /** Whatever follows, an operand that does not compile spoils the expression. */
  lemma {:induction false} InfixKeepsFault(ts: Tokens, pos: nat, prec: nat, left: Expr, locals: seq<Local>, k: nat)
    requires pos <= |ts| && !GenExpr(left, locals, k).ok
    ensures var r := ParseInfix(ts, pos, prec, left); r.None? || !GenExpr(r.value.0, locals, k).ok
    decreases |ts| - pos
  {
    hide ParseExpr, ParsePrefix, SkipLines, GenExpr;
    var t := Peek(ts, pos);
    if Prec(t) >= prec && Prec(t) != PREC_NONE {
      match t
      case TBinary(op) =>
        var r := ParseExpr(ts, pos + 1, BinPrec(op) + 1);
        if r.Some? { FaultSpreads(op, left, r.value.0, left, locals, k); InfixKeepsFault(ts, r.value.1, prec, Binary(op, left, r.value.0), locals, k); }
      case TAnd =>
        var r := ParseExpr(ts, pos + 1, PREC_AND);
        if r.Some? { FaultSpreads(Add, left, r.value.0, left, locals, k); InfixKeepsFault(ts, r.value.1, prec, And(left, r.value.0), locals, k); }
      case TOr =>
        var r := ParseExpr(ts, pos + 1, PREC_OR);
        if r.Some? { FaultSpreads(Add, left, r.value.0, left, locals, k); InfixKeepsFault(ts, r.value.1, prec, Or(left, r.value.0), locals, k); }
      case TQuestion =>
        var a := ParseExpr(ts, SkipLines(ts, pos + 1), PREC_CONDITIONAL);
        if a.Some? && Peek(ts, SkipLines(ts, a.value.1)).TColon? {
          var b := ParseExpr(ts, SkipLines(ts, SkipLines(ts, a.value.1) + 1), PREC_ASSIGNMENT);
          if b.Some? { FaultSpreads(Add, left, a.value.0, b.value.0, locals, k); InfixKeepsFault(ts, b.value.1, prec, Cond(left, a.value.0, b.value.0), locals, k); }
        }
      case _ =>
    }
  }

  // ----- turns of the infix loop -----

  lemma {:induction false} EofEnds(ts: Tokens, start: nat, pos: nat, prec: nat)
    requires start <= |ts| && pos == SkipLines(ts, start) && Peek(ts, pos) == TEof
    ensures ParseExpr(ts, start, prec).None?
  {
    if pos < |ts| { assert ParsePrefix(ts, pos, prec).None?; }
  }

  lemma {:induction false} EofOnly(ts: Tokens, start: nat, pos: nat, prec: nat)
    requires start <= |ts| && pos == SkipLines(ts, start) && Peek(ts, pos) != TEof
    ensures pos < |ts|
    ensures var left := ParsePrefix(ts, pos, prec);
            ParseExpr(ts, start, prec) == if left.None? then None else ParseInfix(ts, left.value.1, prec, left.value.0)
  {
    hide ParsePrefix, ParseInfix, SkipLines;
  }

  /** One turn on an operator with a right operand `r`. */
  lemma {:induction false} PairTurn(ts: Tokens, pos: nat, prec: nat, left: Expr, r: Parsed<Expr>, rq: nat, e: Expr,
      locals: seq<Local>, consts: seq<Const>)
    requires pos < |ts| && r == ParseExpr(ts, pos + 1, rq) && PREC_ASSIGNMENT <= prec <= Prec(ts[pos])
    requires || (ts[pos].TBinary? && rq == BinPrec(ts[pos].bop) + 1 && (r.Some? ==> e == Binary(ts[pos].bop, left, r.value.0)))
             || (ts[pos] == TAnd && rq == PREC_AND && (r.Some? ==> e == And(left, r.value.0)))
             || (ts[pos] == TOr && rq == PREC_OR && (r.Some? ==> e == Or(left, r.value.0)))
    ensures var all := ParseInfix(ts, pos, prec, left);
            if r.None? then all.None? else
            && all == ParseInfix(ts, r.value.1, prec, e)
            && (!GenExpr(e, locals, |consts|).ok ==> !Compiles(all, locals, consts))
  {
    hide ParseExpr, ParsePrefix, GenExpr, SkipLines;
    if r.Some? {
      InfixPair(ts, pos, prec, left, r.value.0, rq, r.value.1, e);
      if !GenExpr(e, locals, |consts|).ok { InfixKeepsFault(ts, r.value.1, prec, e, locals, |consts|); }
    }
  }

  /** One turn on `?`: `t` and `f` are what the two arms parse to. */
  lemma {:induction false} CondTurn(ts: Tokens, pos: nat, prec: nat, left: Expr, t: Parsed<Expr>, f: Parsed<Expr>,
      locals: seq<Local>, consts: seq<Const>)
    requires pos < |ts| && ts[pos] == TQuestion && PREC_ASSIGNMENT <= prec <= PREC_CONDITIONAL
    requires t == ParseExpr(ts, SkipLines(ts, pos + 1), PREC_CONDITIONAL)
    requires t.Some? && Peek(ts, SkipLines(ts, t.value.1)).TColon? ==>
             f == ParseExpr(ts, SkipLines(ts, SkipLines(ts, t.value.1) + 1), PREC_ASSIGNMENT)
    ensures var all := ParseInfix(ts, pos, prec, left);
            if t.None? || !Peek(ts, SkipLines(ts, t.value.1)).TColon? || f.None? then all.None? else
            && all == ParseInfix(ts, f.value.1, prec, Cond(left, t.value.0, f.value.0))
            && (!GenExpr(Cond(left, t.value.0, f.value.0), locals, |consts|).ok ==> !Compiles(all, locals, consts))
  {
    hide ParseExpr, ParsePrefix, GenExpr, SkipLines;
    if t.Some? && Peek(ts, SkipLines(ts, t.value.1)).TColon? && f.Some? {
      var e := Cond(left, t.value.0, f.value.0);
      if !GenExpr(e, locals, |consts|).ok { InfixKeepsFault(ts, f.value.1, prec, e, locals, |consts|); }
    }
  }

  /** A first arm that does not compile, or is too long to jump over, spoils the whole. */
  lemma {:induction false} CondSpoilt(ts: Tokens, pos: nat, prec: nat, left: Expr, t: Parsed<Expr>,
      locals: seq<Local>, consts: seq<Const>)
    requires pos < |ts| && ts[pos] == TQuestion && PREC_ASSIGNMENT <= prec <= PREC_CONDITIONAL
    requires t == ParseExpr(ts, SkipLines(ts, pos + 1), PREC_CONDITIONAL)
    requires t.Some? ==> var b := GenExpr(t.value.0, locals, |consts| + |GenExpr(left, locals, |consts|).consts|);
                         !b.ok || 4 + Size(b.code) > MAX_OPERAND
    ensures !Compiles(ParseInfix(ts, pos, prec, left), locals, consts)
  {
    hide ParseExpr, ParsePrefix, ParseInfix, GenExpr, SkipLines, Branch, Size;
    var f := if t.Some? then ParseExpr(ts, SkipLines(ts, SkipLines(ts, t.value.1) + 1), PREC_ASSIGNMENT) else None;
    CondTurn(ts, pos, prec, left, t, f, locals, consts);
    if t.Some? && f.Some? { GenCond(left, t.value.0, f.value.0, locals, |consts|); }
  }

  // ----- prefixes -----

  lemma {:induction false} EncodeUn(op: UnOp)
    ensures Encode(UnCode(op)) == match op
      case UPlus => [] case Negate => [OP_NEGATE] case Not => [OP_NOT] case BitNot => [OP_BIT_NOT]
  {}

  lemma {:induction false} AssignLaid(code: seq<byte>, p: Place, r: Code)
    ensures code + Encode(r) + Encode(Set(p)) == code + Encode(Join(r, Set(p)))
  {
    hide Join, Encode, Set;
    EncodeJoin(r, Set(p));
  }

  lemma {:induction false} UpdateLaid(code: seq<byte>, p: Place, r: Code, op: Code)
    ensures code + Encode(Get(p)) + Encode(r) + Encode(op) + Encode(Set(p)) == code + Encode(UpdateCode(p, r, op))
  {
    hide Join, Encode, Set, Get;
    EncodeJoin(Get(p), Join(r, Join(op, Set(p))));
    EncodeJoin(r, Join(op, Set(p)));
    EncodeJoin(op, Set(p));
  }

  /** A name that is not assigned to is read; one that cannot be resolved is an error either way. */
  lemma {:induction false} PrefixOfName(ts: Tokens, pos: nat, prec: nat, x: string, locals: seq<Local>, consts: seq<Const>)
    requires pos < |ts| && ts[pos] == TIdentifier(x) && prec >= PREC_ASSIGNMENT
    ensures var r := ParsePrefix(ts, pos, prec); var pl := PlaceOf(locals, x, |consts|);
            && (!pl.ok ==> !Compiles(r, locals, consts))
            && (prec > PREC_ASSIGNMENT || !AssignLike(Peek(ts, pos + 1)) ==> r == Some((Var(x), pos + 1)))
  {
    hide ParseExpr, PlaceOf, Join, BinCode, UpdateCode;
  }

  lemma {:induction false} GetEmitted(x: string, locals: seq<Local>, code: seq<byte>, consts: seq<Const>, pl: Place)
    requires pl == PlaceOf(locals, x, |consts|)
    ensures GenExpr(Var(x), locals, |consts|).ok == pl.ok
    ensures Emits(code, consts, GenExpr(Var(x), locals, |consts|),
                  code + Encode(Op16(if pl.local then OP_GET_LOCAL else OP_GET_GLOBAL, pl.arg)), consts + pl.consts)
  {
    hide PlaceOf, Encode, Op16;
  }

  lemma {:induction false} PrefixOfAssignment(ts: Tokens, pos: nat, x: string, locals: seq<Local>, consts: seq<Const>)
    requires pos + 1 < |ts| && ts[pos] == TIdentifier(x) && AssignLike(ts[pos + 1])
    ensures var all := ParsePrefix(ts, pos, PREC_ASSIGNMENT); var t := ts[pos + 1]; var pl := PlaceOf(locals, x, |consts|);
            if t.TIncrement? || t.TDecrement? then
              && all == Some((Step(x, t.TIncrement?), pos + 2))
              && GenExpr(Step(x, t.TIncrement?), locals, |consts|) ==
                 UpdateOut(pl, Out(Op(OP_ONE), [], true, true), BinCode(if t.TIncrement? then Add else Sub))
            else
              var r := ParseExpr(ts, pos + 2, PREC_ASSIGNMENT);
              if r.None? then all.None? else
              var b := GenExpr(r.value.0, locals, |consts| + |pl.consts|);
              var e := if t.TEqual? then Assign(x, r.value.0) else Update(x, t.aop, r.value.0);
              && all == Some((e, r.value.1))
              && GenExpr(e, locals, |consts|) == if t.TEqual? then AssignOut(pl, b) else UpdateOut(pl, b, BinCode(PlainOp(t.aop)))
  {
    hide ParseExpr, PlaceOf, Join, BinCode, UpdateOut, AssignOut, BinaryOut, UnaryOut, AndOut, OrOut, BranchOut, GenLit, Get, Op;
  }

  // ----- walking over emitted code -----

  lemma {:induction false} BytesCons(ins: seq<Instr>)
    requires ins != []
    ensures Bytes(ins) == [ins[0].op] + ins[0].operands + Bytes(ins[1..])
  {}

  lemma {:induction false} NothingLeft(at: nat, end: int)
    ensures Bytes([]) == [] && Bytes(PatchAll([], at, end)) == [] && FitAll([], at, end)
  {}

  /** What the walk is to leave behind, and whether each jump fits. */
  datatype Walking = Walking(end: nat, target: seq<byte>, fits: bool)

  /** The walk stands after `done`, an instruction boundary, with the instructions `rest` ahead. */
  ghost predicate Walk(w: Walking, code: seq<byte>, consts: seq<Const>, done: seq<byte>, rest: seq<Instr>, hadError: bool) {
    && |code| == w.end && code == done + Bytes(rest) && RegularAll(consts, rest)
    && w.target == done + Bytes(PatchAll(rest, |done|, w.end))
    && w.fits == (!hadError && FitAll(rest, |done|, w.end))
  }

  lemma {:induction false} WalkStarts(code: seq<byte>, consts: seq<Const>, pre: seq<byte>, c: Code) returns (w: Walking)
    requires code == pre + Encode(c) && Regular(consts, c)
    ensures Walk(w, code, consts, pre, Flat(c), false)
    ensures w == Walking(|code|, pre + Encode(PatchBreaks(c, |pre|, |pre| + Size(c))), PatchFits(c, |pre|, |pre| + Size(c)))
  {
    hide Encode, Regular, PatchBreaks, PatchFits, Bytes, PatchAll, FitAll, RegularAll;
    FlatPatch(consts, c, |pre|, |code|);
    w := Walking(|code|, pre + Encode(PatchBreaks(c, |pre|, |code|)), PatchFits(c, |pre|, |code|));
  }

  lemma {:induction false} WalkEnds(w: Walking, code: seq<byte>, consts: seq<Const>, done: seq<byte>, rest: seq<Instr>, hadError: bool, c: Code)
    requires Walk(w, code, consts, done, rest, hadError) && |done| >= |code|
    ensures code == w.target && hadError == !w.fits
  {
    if rest != [] { BytesCons(rest); }
  }

  /** What the walk finds at an instruction boundary: the next instruction with exactly its
      operands. It may step over an instruction that is no placeholder, and a placeholder
      may be rewritten into a jump to the end, which is then patched no further. */
  lemma {:induction false} NextInstr(code: seq<byte>, consts: seq<Const>, done: seq<byte>, rest: seq<Instr>, w: Walking, hadError: bool)
    requires Walk(w, code, consts, done, rest, hadError) && |done| < |code|
    ensures rest != [] && code == done + [rest[0].op] + rest[0].operands + Bytes(rest[1..])
    ensures code[|done|] == rest[0].op && ArgsCount(code, consts, |done|) == |rest[0].operands|
    ensures var i := rest[0]; var tail := rest[1..];
            if i.op == OP_BREAK_PL then
              && |i.operands| == 2
              && Walk(w, done + [OP_JUMP] + Short(|Bytes(tail)|) + Bytes(tail), consts, done,
                      [Instr(OP_JUMP, Short(|Bytes(tail)|))] + tail, hadError || |Bytes(tail)| > MAX_OPERAND)
            else Walk(w, code, consts, done + [i.op] + i.operands, tail, hadError)
  {
    hide ArgsCount, FixedArgs, Bytes, PatchAll, FitAll;
    if rest == [] { NothingLeft(|done|, w.end); }
    var i, tail := rest[0], rest[1..];
    assert RegularOp(consts, i.op, i.operands);
    BytesCons(rest);
    ArgsCounted(code, consts, done, i, Bytes(tail));
    PatchCons(rest, |done|, w.end);
    if i.op == OP_BREAK_PL {
      BreakArgs(consts, i.operands);
      JumpStays(consts, |Bytes(tail)|, tail, |done|, w.end);
      assert code == done + [i.op] + i.operands + Bytes(tail);
    }
  }

  /** What the walk of `EndLoop` makes of any code from `i` on: it takes the byte there for an instruction,
      rewrites a placeholder into a jump to the end, and steps over anything else by the
      operands it counts for it. */
  function Swept(code: seq<byte>, consts: seq<Const>, i: nat): seq<byte>
    decreases |code| - i, if i < |code| && code[i] == OP_BREAK_PL then 1 else 0
  {
    if i >= |code| then code
    else if code[i] != OP_BREAK_PL then Swept(code, consts, i + 1 + ArgsCount(code, consts, i))
    else if i + 2 >= |code| then code
    else Swept(code[..i] + [OP_JUMP] + Short(|code| - i - 3) + code[i + 3..], consts, i)
  }

  /** On regular code it is the right patch. */
  lemma {:induction false} SweptWalk(w: Walking, code: seq<byte>, consts: seq<Const>, done: seq<byte>, rest: seq<Instr>, hadError: bool)
    requires Walk(w, code, consts, done, rest, hadError)
    ensures Swept(code, consts, |done|) == w.target
    decreases |code| - |done|, if |done| < |code| && code[|done|] == OP_BREAK_PL then 1 else 0
  {
    hide Walk, ArgsCount, Bytes;
    if |done| >= |code| {
      WalkEnds(w, code, consts, done, rest, hadError, Nop);
    } else {
      NextInstr(code, consts, done, rest, w, hadError);
      var i, tail := rest[0], rest[1..];
      if i.op == OP_BREAK_PL {
        var jump := Short(|Bytes(tail)|);
        var next := done + [OP_JUMP] + jump + Bytes(tail);
        assert code[..|done|] == done && code[|done| + 3..] == Bytes(tail);
        SweptWalk(w, next, consts, done, [Instr(OP_JUMP, jump)] + tail, hadError || |Bytes(tail)| > MAX_OPERAND);
      } else {
        SweptWalk(w, code, consts, done + [i.op] + i.operands, tail, hadError);
      }
    }
  }

  lemma {:induction false} SweptRegular(consts: seq<Const>, pre: seq<byte>, c: Code)
    requires Regular(consts, c)
    ensures Swept(pre + Encode(c), consts, |pre|) == pre + Encode(PatchBreaks(c, |pre|, |pre| + Size(c)))
  {
    hide Encode, Regular, PatchBreaks, Walk, Swept;
    var w := WalkStarts(pre + Encode(c), consts, pre, c);
    SweptWalk(w, pre + Encode(c), consts, pre, Flat(c), false);
  }

  /** The exception to regularity: the instruction that reads a parent method is emitted with
      two operand bytes the walk does not know of. It takes the first of them, which is 0 for
      the first 256 constants, for an instruction with two operands. If the next instruction is
      a placeholder, as after `var a = parent.x` and then `break`, the walk steps over its
      opcode, and it stays a placeholder whatever follows; the walk is back in step after it. */
  lemma {:induction false} ParentMethodMisread(consts: seq<Const>, name: byte, c: Code)
    requires Regular(consts, c)
    ensures !RegularOp(consts, OP_GET_SUPER, [0, name])
    ensures var pre := [OP_GET_SUPER, 0, name, OP_BREAK_PL, 255, 255];
            Swept(pre + Encode(c), consts, 0) == pre + Encode(PatchBreaks(c, 6, 6 + Size(c)))
  {
    hide Encode, Regular, PatchBreaks, Size;
    var pre := [OP_GET_SUPER, 0, name, OP_BREAK_PL, 255, 255];
    var code := pre + Encode(c);
    SweptRegular(consts, pre, c);
    SweptStep(code, consts, 5);
    SweptStep(code, consts, 4);
    SweptStep(code, consts, 1);
    SweptStep(code, consts, 0);
  }

  /** If the next instruction is any of one byte, such as the pop after a statement that is just
      `parent.x`, the walk is back in step before the placeholder, and all is well. */
  lemma {:induction false} ParentMethodInStep(consts: seq<Const>, name: byte, op: byte, c: Code)
    requires Regular(consts, c)
    ensures var pre := [OP_GET_SUPER, 0, name, op];
            Swept(pre + Encode(c), consts, 0) == pre + Encode(PatchBreaks(c, 4, 4 + Size(c)))
  {
    hide Encode, Regular, PatchBreaks, Size;
    var pre := [OP_GET_SUPER, 0, name, op];
    var code := pre + Encode(c);
    SweptRegular(consts, pre, c);
    SweptStep(code, consts, 1);
    SweptStep(code, consts, 0);
  }

  lemma {:induction false} SweptStep(code: seq<byte>, consts: seq<Const>, i: nat)
    requires i < |code| && code[i] != OP_BREAK_PL && code[i] != OP_CLOSURE
    ensures Swept(code, consts, i) == Swept(code, consts, i + 1 + FixedArgs(code[i]))
  {}

  lemma {:induction false} PatchCons(rest: seq<Instr>, at: nat, end: int)
    requires rest != []
    ensures var i := rest[0]; var next := at + 1 + |i.operands|; var p := Patched(i, at, end);
            && Bytes(PatchAll(rest, at, end)) == [p.op] + p.operands + Bytes(PatchAll(rest[1..], next, end))
            && FitAll(rest, at, end) ==
               (Fits(i, at, end) && FitAll(rest[1..], next, end))
  {
    var p := PatchAll(rest, at, end);
    assert p[1..] == PatchAll(rest[1..], at + 1 + |rest[0].operands|, end);
    BytesCons(p);
  }

  lemma {:induction false} BreakArgs(consts: seq<Const>, operands: seq<byte>)
    requires RegularOp(consts, OP_BREAK_PL, operands)
    ensures |operands| == 2
  {}

  /** A rewritten placeholder is patched no further. */
  lemma {:induction false} JumpStays(consts: seq<Const>, n: nat, tail: seq<Instr>, at: nat, end: int)
    requires RegularAll(consts, tail)
    ensures var j := Instr(OP_JUMP, Short(n)); var rest := [j] + tail;
            && RegularAll(consts, rest) && Bytes(rest) == [OP_JUMP] + Short(n) + Bytes(tail)
            && Bytes(PatchAll(rest, at, end)) == [OP_JUMP] + Short(n) + Bytes(PatchAll(tail, at + 3, end))
            && FitAll(rest, at, end) == FitAll(tail, at + 3, end)
  {
    var j := Instr(OP_JUMP, Short(n));
    var rest := [j] + tail;
    assert rest[1..] == tail;
    var p := PatchAll(rest, at, end);
    assert p[1..] == PatchAll(tail, at + 3, end);
    BytesCons(p);
  }

  // ----- scopes -----

  lemma {:induction false} PopsEncoded(n: nat)
    ensures n == 0 ==> Encode(Pops(0)) == []
    ensures Encode(Pops(n + 1)) == Encode(Pops(n)) + [OP_POP]
    decreases n
  {
    if n == 0 {
      assert Encode(Pops(0)) == [];
      assert Encode(Pops(1)) == [OP_POP] + Encode(Pops(0));
    } else {
      PopsEncoded(n - 1);
      assert Encode(Pops(n + 1)) == [OP_POP] + Encode(Pops(n));
      assert Encode(Pops(n)) == [OP_POP] + Encode(Pops(n - 1));
    }
  }

  lemma {:induction false} DeeperStep(locals: seq<Local>, depth: int)
    ensures var n := |locals|;
            Deeper(locals, depth) == if n == 0 || locals[n - 1].depth <= depth then 0 else 1 + Deeper(locals[..n - 1], depth)
  {}

  lemma {:induction false} DeeperPrefix(locals: seq<Local>, i: nat, depth: int)
    requires i <= |locals|
    ensures Deeper(locals[..i], depth) == if i == 0 || locals[i - 1].depth <= depth then 0 else 1 + Deeper(locals[..i - 1], depth)
  {
    if i > 0 { assert locals[..i][..i - 1] == locals[..i - 1]; }
  }

  lemma {:induction false} DeclsEnd(ts: Tokens, pos: nat, b: Blob, depth: nat, loop: Loop)
    requires pos <= |ts| && (Peek(ts, pos) == TRBrace || Peek(ts, pos) == TEof)
    ensures DeclsGoal(ts, pos, b, depth, loop) == Some((b, pos))
  {
    hide DeclsGoal;
    DeclsForm(ts, pos, b, depth, loop);
  }

  /** A statement keeps the locals, moves on and only adds code. */
  lemma {:induction false} BareKeeps(ts: Tokens, pos: nat, b: Blob, depth: nat, loop: Loop)
    requires pos < |ts|
    ensures var g := BareGoal(ts, pos, b, depth, loop);
            g.Some? ==> pos < g.value.1 <= |ts| && g.value.0.locals == b.locals && |b.code| <= |g.value.0.code|
  {
    hide ParseBare, GenStmt, Encode;
  }

  lemma {:induction false} StmtKeeps(ts: Tokens, pos: nat, b: Blob, depth: nat, loop: Loop)
    ensures var g := StmtGoal(ts, pos, b, depth, loop);
            g.Some? ==> && pos < g.value.1 <= |ts| && g.value.0.locals == b.locals
                        && b.code <= g.value.0.code && b.consts <= g.value.0.consts
  {
    hide ParseStmt, GenStmt, Encode;
  }

  lemma {:induction false} AfterTest(pre: seq<byte>, code: seq<byte>)
    requires pre + [OP_JUMP_IF_FALSE, 255, 255, OP_POP] <= code
    ensures var arm := Suffix(code, |pre| + 4);
            code + HOLE == pre + [OP_JUMP_IF_FALSE, 255, 255] + ([OP_POP] + arm + HOLE) && |code| == |pre| + 4 + |arm|
  {}

  lemma {:induction false} AfterHole(pre: seq<byte>, code: seq<byte>)
    requires pre + HOLE + [OP_POP] <= code
    ensures code == pre + [OP_JUMP, 255, 255] + ([OP_POP] + Suffix(code, |pre| + 4))
  {}

  /** What is compiled depends on how much code there is, not on what it is. */
  lemma {:induction false} ElseRebase(ts: Tokens, pos: nat, b: Blob, c: Blob, depth: nat, loop: Loop)
    requires |b.code| == |c.code| && b.consts == c.consts && b.locals == c.locals
    ensures var g := ElseGoal(ts, pos, b, depth, loop); var h := ElseGoal(ts, pos, c, depth, loop);
            if g.None? then h.None?
            else h.Some? && h.value.1 == g.value.1 && h.value.0.consts == g.value.0.consts
                 && Suffix(h.value.0.code, |b.code|) == Suffix(g.value.0.code, |b.code|)
  {
    hide ParseStmt, GenStmt, Encode;
  }

  // ----- loops as they are laid down -----

  lemma {:induction false} BackLength(at: nat, start: int)
    ensures |Encode(Back(at, start))| == 3
  {
    hide Encode;
  }

  lemma {:induction false} RawWhileLaid(pre: seq<byte>, a: Code, o: Code)
    ensures var atBack := |pre| + Size(a) + 4 + Size(o);
            var post := [OP_POP] + Encode(o) + Encode(Back(atBack, |pre|));
            && |post| == 4 + Size(o)
            && pre + Encode(RawWhile(a, o, |pre|)) == pre + Encode(a) + Encode(Op16(OP_JUMP_IF_FALSE, |post|)) + post + Encode(Op(OP_POP))
  {
    hide Encode, Op16, Op, Back, Join;
    var atBack := |pre| + Size(a) + 4 + Size(o);
    var test, back := Op16(OP_JUMP_IF_FALSE, 4 + Size(o)), Back(atBack, |pre|);
    BackLength(atBack, |pre|);
    EncodeOp(OP_POP);
    EncodeJoin(Join(a, Join(test, Op(OP_POP))), Join(o, Join(back, Op(OP_POP))));
    EncodeJoin(a, Join(test, Op(OP_POP)));
    EncodeJoin(test, Op(OP_POP));
    EncodeJoin(o, Join(back, Op(OP_POP)));
    EncodeJoin(back, Op(OP_POP));
  }

  lemma {:induction false} RawDoLaid(pre: seq<byte>, o: Code, a: Code)
    ensures var atBack := |pre| + Size(o) + Size(a) + 4;
            pre + Encode(RawDo(o, a, |pre|)) ==
            pre + Encode(o) + Encode(a) + Encode(Op16(OP_JUMP_IF_FALSE, 4)) + ([OP_POP] + Encode(Back(atBack, |pre|))) + Encode(Op(OP_POP))
  {
    hide Encode, Op16, Op, Back, Join;
    var atBack := |pre| + Size(o) + Size(a) + 4;
    var test, back := Op16(OP_JUMP_IF_FALSE, 4), Back(atBack, |pre|);
    var guard := Join(a, Join(test, Op(OP_POP)));
    EncodeOp(OP_POP);
    EncodeJoin(o, Join(guard, Join(back, Op(OP_POP))));
    EncodeJoin(guard, Join(back, Op(OP_POP)));
    EncodeJoin(a, Join(test, Op(OP_POP)));
    EncodeJoin(test, Op(OP_POP));
    EncodeJoin(back, Op(OP_POP));
  }

  /** The test of an `iter` loop with its exit still open. */
  ghost function TestHole(hasCond: bool, c: Code): seq<byte> {
    if hasCond then Encode(c) + [OP_JUMP_IF_FALSE, 255, 255] + [OP_POP] else []
  }

  lemma {:induction false} TestHoleSize(hasCond: bool, c: Code)
    ensures |TestHole(hasCond, c)| == if hasCond then Size(c) + 4 else 0
  {
    hide Encode;
  }

  lemma {:induction false} StepEncoded(sh: IterShape, i: Code)
    ensures Encode(IterStep(sh, i)) ==
            if sh.hasIncr then Encode(Op16(OP_JUMP, 4 + sh.incr)) + (Encode(i) + [OP_POP] + Encode(Back(sh.AtIncr() + sh.incr + 1, sh.at)))
            else []
  {
    hide Encode, Op16, Op, Back, Join;
    var skip, back := Op16(OP_JUMP, sh.incr + 4), Back(sh.AtIncr() + sh.incr + 1, sh.at);
    EncodeNop();
    EncodeOp(OP_POP);
    EncodeJoin(skip, Join(i, Join(Op(OP_POP), back)));
    EncodeJoin(i, Join(Op(OP_POP), back));
    EncodeJoin(Op(OP_POP), back);
  }

  lemma {:induction false} RawIterLaid(pre: seq<byte>, sh: IterShape, c: Code, i: Code, o: Code)
    requires sh.cond == Size(c)
    ensures var atBack := sh.AtBody() + Size(o); var back := Encode(Back(atBack, sh.Start()));
            pre + RawPre(sh, c, o) + Encode(RawIter(sh, c, i, o)) ==
            if sh.hasCond then pre + Encode(c) + Encode(Op16(OP_JUMP_IF_FALSE, atBack - sh.at - sh.cond))
                               + ([OP_POP] + Encode(IterStep(sh, i)) + Encode(o) + back) + Encode(Op(OP_POP))
            else pre + [] + Encode(IterStep(sh, i)) + Encode(o) + back
  {
    hide Encode, Op16, Op, Back, IterHead, IterTail, IterStep, RawPre, RawIter, Size;
    var atBack := sh.AtBody() + Size(o);
    RawIs(sh, c, i, o);
    HeadAndTail(sh, c, atBack);
    Regroup(pre, Encode(c), Encode(Op16(OP_JUMP_IF_FALSE, atBack - sh.at - sh.cond)), Encode(IterStep(sh, i)), Encode(o),
      Encode(Back(atBack, sh.Start())), Encode(Op(OP_POP)));
    assert pre + RawPre(sh, c, o) + Encode(RawIter(sh, c, i, o)) == pre + (RawPre(sh, c, o) + Encode(RawIter(sh, c, i, o)));
  }

  lemma {:induction false} RawIs(sh: IterShape, c: Code, i: Code, o: Code)
    ensures var atBack := sh.AtBody() + Size(o);
            RawPre(sh, c, o) + Encode(RawIter(sh, c, i, o)) ==
            Encode(IterHead(sh, c, atBack)) + (Encode(IterStep(sh, i)) + (Encode(o) + Encode(IterTail(sh, atBack))))
  {
    hide Encode, Op16, Op, Back, Join, IterHead, IterTail, IterStep, Size;
    var atBack := sh.AtBody() + Size(o);
    var head, tail := IterHead(sh, c, atBack), IterTail(sh, atBack);
    IterEncoded(sh, c, i, atBack, o, tail);
    EncodeJoin(head, Join(IterStep(sh, i), Join(o, tail)));
    EncodeJoin(IterStep(sh, i), Join(o, tail));
    EncodeJoin(o, tail);
  }

  lemma {:induction false} Regroup(pre: seq<byte>, c: seq<byte>, test: seq<byte>, step: seq<byte>, o: seq<byte>, back: seq<byte>, pop: seq<byte>)
    ensures pre + (c + test + [OP_POP] + (step + (o + (back + pop)))) == pre + c + test + ([OP_POP] + step + o + back) + pop
    ensures pre + ([] + (step + (o + back))) == pre + [] + step + o + back
  {}

  lemma {:induction false} StepSize(sh: IterShape, i: Code)
    requires sh.incr == Size(i)
    ensures sh.AtStep() + Size(IterStep(sh, i)) == sh.AtBody()
  {
    hide Op, Op16, Back;
    BackSize(sh.AtIncr() + sh.incr + 1, sh.at);
  }

  lemma {:induction false} BackSize(at: nat, start: int)
    ensures Size(Back(at, start)) == 3
  {}

  lemma {:induction false} NothingEmpty(locals: seq<Local>, k: nat)
    ensures Size(GenOpt(None, locals, k).code) == 0
  {}

  lemma {:induction false} HeadAndTail(sh: IterShape, c: Code, atBack: nat)
    ensures var back := Encode(Back(atBack, sh.Start()));
            && Encode(IterHead(sh, c, atBack)) ==
               (if sh.hasCond then Encode(c) + Encode(Op16(OP_JUMP_IF_FALSE, atBack - sh.at - sh.cond)) + [OP_POP] else [])
            && Encode(IterTail(sh, atBack)) == (if sh.hasCond then back + Encode(Op(OP_POP)) else back)
  {
    hide Encode, Op16, Op, Back, Join;
    var test, back := Op16(OP_JUMP_IF_FALSE, atBack - sh.at - sh.cond), Back(atBack, sh.Start());
    EncodeNop();
    EncodeOp(OP_POP);
    EncodeJoin(c, Join(test, Op(OP_POP)));
    EncodeJoin(test, Op(OP_POP));
    EncodeJoin(back, if sh.hasCond then Op(OP_POP) else Nop);
    assert Encode(back) + [] == Encode(back);
  }

  // ----- lists of cases -----

  /** A finished list of cases whose last body is `tail`. */
  ghost function Finished(items: seq<seq<byte>>, tail: seq<byte>, consts: seq<Const>, table: map<Value, nat>, dflt: int, pos: nat): Option<Cased> {
    if WeaveFits(items, tail) then Some(Cased(Weave(items, tail), consts, table, dflt, pos)) else None
  }

  lemma {:induction false} PrependEnd(items: seq<seq<byte>>, consts: seq<Const>, table: map<Value, nat>, pos: nat)
    ensures Prepend(items, consts, table, Some(Cased([], [], map[], -1, pos))) == Finished(items, [], consts, table, -1, pos)
  {
    hide Weave, WeaveFits;
    assert consts + [] == consts && table + map[] == table;
  }

  lemma {:induction false} PrependLast(items: seq<seq<byte>>, consts: seq<Const>, table: map<Value, nat>, item: seq<byte>,
      more: seq<Const>, dflt: int, pos: nat)
    ensures Prepend(items, consts, table, Some(Cased(item, more, map[], dflt, pos))) == Finished(items, item, consts + more, table, dflt, pos)
  {
    hide Weave, WeaveFits;
    assert table + map[] == table;
  }

  /** Where the jumps after the cases have their operands. */
  ghost predicate EndsAt(ends: seq<nat>, base: nat, items: seq<seq<byte>>) {
    && |ends| == |items|
    && forall j :: 0 <= j < |items| ==> ends[j] == base + |Held(items[..j])| + |items[j]| + 1
  }

  lemma {:induction false} EndsCount(ends: seq<nat>, base: nat, items: seq<seq<byte>>)
    requires EndsAt(ends, base, items)
    ensures |ends| == |items|
  {}

  lemma {:induction false} EndsEntry(ends: seq<nat>, base: nat, items: seq<seq<byte>>, i: nat)
    requires EndsAt(ends, base, items) && i < |items|
    ensures |ends| == |items| && ends[i] == base + |Held(items[..i])| + |items[i]| + 1
  {}

  lemma {:induction false} EndsMore(ends: seq<nat>, base: nat, items: seq<seq<byte>>, item: seq<byte>)
    requires EndsAt(ends, base, items)
    ensures EndsAt(ends + [base + |Held(items)| + |item| + 1], base, items + [item])
  {
    hide Held;
    var all, ends' := items + [item], ends + [base + |Held(items)| + |item| + 1];
    forall j | 0 <= j < |all| ensures ends'[j] == base + |Held(all[..j])| + |all[j]| + 1 {
      if j < |items| { assert all[..j] == items[..j]; } else { assert all[..j] == items; }
    }
  }

  lemma {:induction false} HeldNone(tail: seq<byte>)
    ensures Held([]) == [] && Weave([], tail) == tail && WeaveFits([], tail)
  {}

  /** One more case patched. */
  lemma {:induction false} WeaveStep(items: seq<seq<byte>>, i: nat, tail: seq<byte>)
    requires i < |items|
    ensures var rest := items[i + 1..]; var n := |Held(rest)| + |tail|;
            && Held(items[i..]) == items[i] + HOLE + Held(rest)
            && Weave(items[i..], tail) == items[i] + Encode(Op16(OP_JUMP, n)) + Weave(rest, tail)
            && WeaveFits(items[i..], tail) == (n <= MAX_OPERAND && WeaveFits(rest, tail))
            && |Held(items[..i + 1])| == |Held(items[..i])| + |items[i]| + 3
  {
    hide Encode, Op16;
    assert items[i..][1..] == items[i + 1..];
    HeldLength(items[i + 1..], tail);
    assert items[..i + 1] == items[..i] + [items[i]];
    HeldAppend(items[..i], items[i]);
  }

  ghost function Labelled(seen: seq<Literal>, rest: Parsed<seq<Literal>>): Parsed<seq<Literal>> {
    if rest.None? then None else Some((seen + rest.value.0, rest.value.1))
  }

  lemma {:induction false} NoneLabelled(rest: Parsed<seq<Literal>>)
    ensures Labelled([], rest) == rest
  {
    if rest.Some? { assert [] + rest.value.0 == rest.value.0; }
  }

  lemma {:induction false} LabelsForm(ts: Tokens, pos: nat, seen: seq<Literal>)
    requires pos <= |ts|
    ensures var all := Labelled(seen, ParseLabels(ts, pos)); var t := Peek(ts, pos);
            if !t.TLiteral? || t.lit == LNil then all.None?
            else all == if Peek(ts, pos + 1).TComma? then Labelled(seen + [t.lit], ParseLabels(ts, pos + 2))
                        else Some((seen + [t.lit], pos + 1))
  {
    var t := Peek(ts, pos);
    if t.TLiteral? && t.lit != LNil && Peek(ts, pos + 1).TComma? {
      var rest := ParseLabels(ts, pos + 2);
      if rest.Some? { assert seen + ([t.lit] + rest.value.0) == seen + [t.lit] + rest.value.0; }
    }
  }

  lemma {:induction false} NoLabels(table: map<Value, nat>, offset: nat)
    ensures table == table + LabelTable([], offset)
  {}

  lemma {:induction false} MoreLabels(table: map<Value, nat>, seen: seq<Literal>, l: Literal, offset: nat)
    ensures (table + LabelTable(seen, offset))[LiteralValue(l) := offset] == table + LabelTable(seen + [l], offset)
  {
    var a, b := (table + LabelTable(seen, offset))[LiteralValue(l) := offset], table + LabelTable(seen + [l], offset);
    forall m | m in seen ensures m in seen + [l] {}
    assert (seen + [l])[|seen|] == l;
    assert a.Keys == b.Keys;
  }

  // ----- parameters -----

  lemma {:induction false} NoParams()
    ensures ParamLocals([]) == [Local("", 0)] && DistinctNames([])
  {}

  lemma {:induction false} ParamsMore(seen: seq<string>, x: string)
    ensures |ParamLocals(seen)| == 1 + |seen|
    ensures ParamLocals(seen + [x]) == ParamLocals(seen) + [Local(x, 1)]
    ensures Clashes(ParamLocals(seen), 1, x) == (x in seen)
    ensures DistinctNames(seen) && x !in seen ==> DistinctNames(seen + [x])
  {
    hide Clashes;
    ParamClash(seen, x);
  }

  lemma {:induction false} ParamClash(seen: seq<string>, x: string)
    ensures Clashes(ParamLocals(seen), 1, x) == (x in seen)
  {
    var locals, n := ParamLocals(seen), |seen|;
    if n == 0 {
      assert locals == [Local("", 0)];
    } else {
      assert locals[n] == Local(seen[n - 1], 1);
      assert locals[..n] == ParamLocals(seen[..n - 1]);
      assert seen == seen[..n - 1] + [seen[n - 1]];
      ParamClash(seen[..n - 1], x);
    }
  }

  ghost function Prefixed(seen: seq<string>, rest: Parsed<seq<string>>): Parsed<seq<string>> {
    if rest.None? then None else Some((seen + rest.value.0, rest.value.1))
  }

  lemma {:induction false} ParamsForm(ts: Tokens, pos: nat, seen: seq<string>)
    ensures var all := Prefixed(seen, ParseParams(ts, pos)); var start := SkipLines(ts, pos);
            if !Peek(ts, start).TIdentifier? then all.None? else
            var x := ts[start].name; var next := SkipLines(ts, start + 1);
            && (all.Some? ==> seen + [x] <= all.value.0)
            && all == if Peek(ts, next).TComma? then Prefixed(seen + [x], ParseParams(ts, next + 1)) else Some((seen + [x], next))
  {
    hide SkipLines;
    var start := SkipLines(ts, pos);
    if Peek(ts, start).TIdentifier? {
      var x, next := ts[start].name, SkipLines(ts, start + 1);
      var rest := if Peek(ts, next).TComma? then ParseParams(ts, next + 1) else None;
      if rest.Some? { assert seen + ([x] + rest.value.0) == seen + [x] + rest.value.0; }
    }
  }

  /** A repeated or surplus parameter is a fault whatever follows it. */
  lemma {:induction false} ParamsFault(seen: seq<string>, t: Token, all: seq<string>)
    requires t.TIdentifier? ==> seen + [t.name] <= all
    ensures t.TIdentifier? && t.name in seen ==> !DistinctNames(all)
    ensures t.TIdentifier? && 1 + |seen| >= MAX_LOCALS ==> |ParamLocals(all)| > MAX_LOCALS
  {
    if t.TIdentifier? {
      assert all[|seen|] == t.name;
      if t.name in seen {
        var i :| 0 <= i < |seen| && seen[i] == t.name;
        assert all[i] == t.name;
      }
    }
  }

  lemma {:induction false} ParamsShallow(params: seq<string>)
    ensures Shallow(ParamLocals(params), 1)
  {
    var locals := ParamLocals(params);
    forall i | 0 <= i < |locals| ensures locals[i].depth <= 1 {
      if i > 0 { assert locals[i] == Local(params[i - 1], 1); }
    }
  }

  // ----- the parser -----

  /** `o` has been appended to the blob. */
  ghost predicate Emits(code: seq<byte>, consts: seq<Const>, o: Out, code': seq<byte>, consts': seq<Const>) {
    code' == code + Encode(o.code) && consts' == consts + o.consts
  }

  /** The parser stands after the tree `r`, having emitted its code without an error. */
  ghost predicate Compiles(r: Parsed<Expr>, locals: seq<Local>, consts: seq<Const>) {
    r.Some? && GenExpr(r.value.0, locals, |consts|).ok
  }

  class Parser {
    const tokens: Tokens
    var pos: nat
    var code: seq<byte>
    var constants: seq<Const>
    var locals: seq<Local>
    var scopeDepth: nat
    var innermostLoopStart: int
    var innermostLoopScopeDepth: int
    ghost var loopLocals: nat
    var hadError: bool

    constructor (tokens: Tokens)
      ensures this.tokens == tokens && pos == 0 && code == [] && constants == [] && locals == [] && scopeDepth == 0
      ensures innermostLoopStart == -1 && innermostLoopScopeDepth == 0 && loopLocals == 0 && !hadError
    {
      this.tokens := tokens;
      pos, code, constants, locals, scopeDepth := 0, [], [], [], 0;
      innermostLoopStart, innermostLoopScopeDepth, loopLocals, hadError := -1, 0, 0, false;
    }

    // ----- tokens -----

    function Current(): Token reads this { Peek(tokens, pos) }

    /** Consumes the current token if it is `t`. */
    method Match(t: Token) returns (matched: bool)
      requires t != TEof && pos <= |tokens|
      modifies `pos
      ensures matched == (Peek(tokens, old(pos)) == t)
      ensures pos == (if matched then old(pos) + 1 else old(pos)) <= |tokens|
    {
      matched := Current() == t;
      if matched { pos := pos + 1; }
    }

    method IgnoreWhitespace()
      requires pos <= |tokens|
      modifies `pos
      ensures pos == SkipLines(tokens, old(pos)) <= |tokens|
    {
      while Current() == TNewline
        invariant old(pos) <= pos <= |tokens|
        invariant SkipLines(tokens, old(pos)) == SkipLines(tokens, pos)
        decreases |tokens| - pos
      {
        pos := pos + 1;
      }
    }

    method Consume(t: Token)
      requires t != TEof && pos <= |tokens| && !hadError
      modifies `pos, `hadError
      ensures hadError == (Peek(tokens, old(pos)) != t)
      ensures pos == (if hadError then old(pos) else old(pos) + 1) <= |tokens|
    {
      var ok := Match(t);
      hadError := !ok;
    }

    // ----- emission -----

    method EmitByte(b: byte)
      modifies `code
      ensures code == old(code) + Encode(Op(b))
    {
      EncodeOp(b);
      code := code + [b];
    }

    method EmitByteAndShort(op: byte, n: int)
      modifies `code
      ensures code == old(code) + Encode(Op16(op, n))
    {
      EncodeOp16(op, n);
      code := code + [op] + Short(n);
    }

    method MakeConstant(c: Const) returns (k: nat)
      requires !hadError
      modifies `constants, `hadError
      ensures constants == old(constants) + [c]
      ensures hadError == (|old(constants)| >= MAX_OPERAND)
      ensures !hadError ==> k == |old(constants)|
    {
      constants := constants + [c];
      k := |constants| - 1;
      if k >= MAX_OPERAND {
        hadError := true;
        k := 0;
      }
    }

    /** A jump whose distance is not known yet; the result is the place of its operand. */
    method EmitJump(op: byte) returns (offset: nat)
      modifies `code
      ensures code == old(code) + [op, 255, 255] && offset == |old(code)| + 1
    {
      code := code + [op];
      code := code + [255];
      code := code + [255];
      offset := |code| - 2;
    }

    /** Makes the jump at `offset` land at the end of the code emitted so far. */
    method PatchJump(offset: nat, ghost pre: seq<byte>, ghost op: byte, ghost post: seq<byte>,
                     ghost hi: byte := 255, ghost lo: byte := 255)
      requires code == pre + [op, hi, lo] + post && offset == |pre| + 1
      modifies `code, `hadError
      ensures code == pre + Encode(Op16(op, |post|)) + post
      ensures hadError == (old(hadError) || |post| > MAX_OPERAND)
    {
      var jump := |code| - offset - 2;
      if jump > MAX_OPERAND {
        hadError := true;
      }
      EncodeOp16(op, |post|);
      code := code[offset := jump / 256 % 256];
      code := code[offset + 1 := jump % 256];
      assert code == pre + ([op] + Short(|post|)) + post;
    }

    /** Turns the break placeholders of the innermost loop, whose code is `c`, into jumps to
        the end: walks the emitted bytes instruction by instruction. A placeholder that has
        been rewritten is visited once more, as a jump. */
    method EndLoop(ghost pre: seq<byte>, ghost c: Code)
      requires code == pre + Encode(c) && Regular(constants, c) && innermostLoopStart == |pre| && !hadError
      modifies `code, `hadError
      ensures code == pre + Encode(PatchBreaks(c, |pre|, |pre| + Size(c)))
      ensures hadError == !PatchFits(c, |pre|, |pre| + Size(c))
    {
      hide Encode, Regular, PatchBreaks, PatchFits, Bytes, Walk, ArgsCount, Flat, Size;
      var i := innermostLoopStart;
      ghost var done, rest := pre, Flat(c);
      ghost var w := WalkStarts(code, constants, pre, c);
      while i < |code|
        invariant i == |done| && Walk(w, code, constants, done, rest, hadError)
        decreases |code| - i, if i < |code| && code[i] == OP_BREAK_PL then 1 else 0
      {
        NextInstr(code, constants, done, rest, w, hadError);
        if code[i] == OP_BREAK_PL {
          ghost var hi, lo := rest[0].operands[0], rest[0].operands[1];
          code := code[i := OP_JUMP];
          assert code == done + [OP_JUMP, hi, lo] + Bytes(rest[1..]);
          PatchJump(i + 1, done, OP_JUMP, Bytes(rest[1..]), hi, lo);
          EncodeOp16(OP_JUMP, |Bytes(rest[1..])|);
          assert code == done + [OP_JUMP] + Short(|Bytes(rest[1..])|) + Bytes(rest[1..]);
          rest := [Instr(OP_JUMP, Short(|Bytes(rest[1..])|))] + rest[1..];
        } else {
          i := i + 1 + ArgsCount(code, constants, i);
          done, rest := done + [rest[0].op] + rest[0].operands, rest[1..];
        }
      }
      WalkEnds(w, code, constants, done, rest, hadError, c);
    }

    // ----- expressions -----

    method ResolveLocal(x: string) returns (i: int)
      ensures i == Resolve(locals, x)
    {
      i := |locals| - 1;
      while i >= 0
        invariant -1 <= i < |locals|
        invariant forall j :: i < j < |locals| ==> locals[j].name != x
      {
        if locals[i].name == x { return; }
        i := i - 1;
      }
    }

    /** An expression whose operators bind at least as tightly as `prec`: a prefix, then the
        infix operators that follow it. */
    method ParsePrecedence(prec: nat)
      requires pos <= |tokens| && !hadError && prec >= PREC_ASSIGNMENT
      modifies `pos, `code, `constants, `hadError
      ensures pos <= |tokens|
      ensures var r := ParseExpr(tokens, old(pos), prec);
              && hadError == !Compiles(r, locals, old(constants))
              && (!hadError ==> pos == r.value.1 && Emits(old(code), old(constants),
                                GenExpr(r.value.0, locals, |old(constants)|), code, constants))
      decreases |tokens| - pos, 3
    {
      hide GenExpr, ParsePrefix, ParseInfix, SkipLines;
      ghost var start := pos;
      IgnoreWhitespace();
      if Current() == TEof {
        EofEnds(tokens, start, pos, prec);
        hadError := true;
        return;
      }
      EofOnly(tokens, start, pos, prec);
      ghost var left := ParsePrefix(tokens, pos, prec);
      Prefix(prec);
      if hadError {
        if left.Some? { InfixKeepsFault(tokens, left.value.1, prec, left.value.0, locals, |old(constants)|); }
        return;
      }
      Infix(prec, left.value.0, old(code), old(constants));
    }

    /** The infix part: `left` has been emitted, and each operator found extends it. */
    method Infix(prec: nat, ghost left: Expr, ghost code0: seq<byte>, ghost consts0: seq<Const>)
      requires pos <= |tokens| && !hadError && prec >= PREC_ASSIGNMENT
      requires Emits(code0, consts0, GenExpr(left, locals, |consts0|), code, constants)
      requires GenExpr(left, locals, |consts0|).ok
      modifies `pos, `code, `constants, `hadError
      ensures pos <= |tokens|
      ensures var r := ParseInfix(tokens, old(pos), prec, left);
              && hadError == !Compiles(r, locals, consts0)
              && (!hadError ==> pos == r.value.1 && Emits(code0, consts0,
                                GenExpr(r.value.0, locals, |consts0|), code, constants))
      decreases |tokens| - pos, 2
    {
      hide GenExpr, ParsePrefix, ParseExpr, Emits, Encode;
      ghost var e := left;
      while Prec(Current()) >= prec
        invariant pos <= |tokens| && !hadError && old(pos) <= pos
        invariant ParseInfix(tokens, old(pos), prec, left) == ParseInfix(tokens, pos, prec, e)
        invariant GenExpr(e, locals, |consts0|).ok
        invariant Emits(code0, consts0, GenExpr(e, locals, |consts0|), code, constants)
        decreases |tokens| - pos
      {
        e := OneInfix(prec, e, code0, consts0);
        if hadError { return; }
      }
      if prec <= PREC_ASSIGNMENT && Current() == TEqual {
        hadError := true;
      }
    }

    /** One operator with its remaining operands. */
    method OneInfix(prec: nat, ghost left: Expr, ghost code0: seq<byte>, ghost consts0: seq<Const>) returns (ghost e: Expr)
      requires pos <= |tokens| && !hadError && prec >= PREC_ASSIGNMENT && Prec(Current()) >= prec
      requires Emits(code0, consts0, GenExpr(left, locals, |consts0|), code, constants)
      requires GenExpr(left, locals, |consts0|).ok
      modifies `pos, `code, `constants, `hadError
      ensures pos <= |tokens|
      ensures hadError ==> !Compiles(ParseInfix(tokens, old(pos), prec, left), locals, consts0)
      ensures !hadError ==>
        && old(pos) < pos
        && ParseInfix(tokens, old(pos), prec, left) == ParseInfix(tokens, pos, prec, e)
        && GenExpr(e, locals, |consts0|).ok && Emits(code0, consts0, GenExpr(e, locals, |consts0|), code, constants)
      decreases |tokens| - pos, 1
    {
      hide GenExpr, ParsePrefix, ParseExpr, Emits;
      e := left;
      var t := Current();
      pos := pos + 1;
      if t.TBinary? {
        e := BinaryOperator(t.bop, prec, left, code0, consts0);
      } else if t == TAnd {
        e := AndOperator(prec, left, code0, consts0);
      } else if t == TOr {
        e := OrOperator(prec, left, code0, consts0);
      } else if t == TQuestion {
        e := Conditional(prec, left, code0, consts0);
      } else {
        hadError := true;
      }
    }

    method BinaryOperator(op: BinOp, prec: nat, ghost left: Expr, ghost code0: seq<byte>, ghost consts0: seq<Const>)
      returns (ghost e: Expr)
      requires 0 < pos <= |tokens| && !hadError && prec >= PREC_ASSIGNMENT && tokens[pos - 1] == TBinary(op) && Prec(tokens[pos - 1]) >= prec
      requires Emits(code0, consts0, GenExpr(left, locals, |consts0|), code, constants)
      requires GenExpr(left, locals, |consts0|).ok
      modifies `pos, `code, `constants, `hadError
      ensures pos <= |tokens|
      ensures hadError ==> !Compiles(ParseInfix(tokens, old(pos) - 1, prec, left), locals, consts0)
      ensures !hadError ==>
        && old(pos) <= pos
        && ParseInfix(tokens, old(pos) - 1, prec, left) == ParseInfix(tokens, pos, prec, e)
        && GenExpr(e, locals, |consts0|).ok && Emits(code0, consts0, GenExpr(e, locals, |consts0|), code, constants)
      decreases |tokens| - pos, 4
    {
      hide GenExpr, ParsePrefix, ParseExpr, ParseInfix, Encode, BinCode, BinaryOut, Emits, SkipLines, Size;
      EmitsMeans(code0, consts0, GenExpr(left, locals, |consts0|), code, constants);
      ghost var at, k1 := pos, |constants|;
      ghost var r := ParseExpr(tokens, pos, BinPrec(op) + 1);
      ParsePrecedence(BinPrec(op) + 1);
      e := if r.Some? then Binary(op, left, r.value.0) else left;
      PairTurn(tokens, at - 1, prec, left, r, BinPrec(op) + 1, e, locals, consts0);
      if r.Some? {
        GenBinary(op, left, r.value.0, locals, |consts0|);
        BinaryOk(GenExpr(left, locals, |consts0|), GenExpr(r.value.0, locals, k1), op);
        if !hadError { EmitsMeans(old(code), old(constants), GenExpr(r.value.0, locals, k1), code, constants); }
      }
      if hadError { return; }
      EmitOperator(op);
      BinaryLaid(code0, consts0, GenExpr(left, locals, |consts0|), GenExpr(r.value.0, locals, k1), op);
    }

    method AndOperator(prec: nat, ghost left: Expr, ghost code0: seq<byte>, ghost consts0: seq<Const>)
      returns (ghost e: Expr)
      requires 0 < pos <= |tokens| && !hadError && prec >= PREC_ASSIGNMENT && tokens[pos - 1] == TAnd && Prec(tokens[pos - 1]) >= prec
      requires Emits(code0, consts0, GenExpr(left, locals, |consts0|), code, constants)
      requires GenExpr(left, locals, |consts0|).ok
      modifies `pos, `code, `constants, `hadError
      ensures pos <= |tokens|
      ensures hadError ==> !Compiles(ParseInfix(tokens, old(pos) - 1, prec, left), locals, consts0)
      ensures !hadError ==>
        && old(pos) <= pos
        && ParseInfix(tokens, old(pos) - 1, prec, left) == ParseInfix(tokens, pos, prec, e)
        && GenExpr(e, locals, |consts0|).ok && Emits(code0, consts0, GenExpr(e, locals, |consts0|), code, constants)
      decreases |tokens| - pos, 4
    {
      hide GenExpr, ParsePrefix, ParseExpr, ParseInfix, Encode, Join, BinCode, AndCode, OrCode, Branch, SkipLines, Size, Op, Op16, Prec;
      ghost var a := GenExpr(left, locals, |consts0|);
      var endJump := EmitJump(OP_JUMP_IF_FALSE);
      EmitByte(OP_POP);
      ghost var r := ParseExpr(tokens, pos, PREC_AND);
      e := if r.Some? then And(left, r.value.0) else left;
      PairTurn(tokens, pos - 1, prec, left, r, PREC_AND, e, locals, consts0);
      if r.Some? { GenAnd(left, r.value.0, locals, |consts0|); }
      ghost var k1 := |constants|;
      ParsePrecedence(PREC_AND);
      if hadError { return; }
      ghost var b := GenExpr(r.value.0, locals, k1);
      EncodeOp(OP_POP);
      assert code == code0 + Encode(a.code) + [OP_JUMP_IF_FALSE, 255, 255] + ([OP_POP] + Encode(b.code));
      PatchJump(endJump, code0 + Encode(a.code), OP_JUMP_IF_FALSE, [OP_POP] + Encode(b.code));
      AndLaid(code0, consts0, a, b);
    }

    /** The two jumps of `or`: over the second if the value is false, and past the operand. */
    method OrJumps() returns (endJump: nat)
      requires !hadError
      modifies `code, `hadError
      ensures !hadError && code == old(code) + Encode(Op16(OP_JUMP_IF_FALSE, 3)) + [OP_JUMP, 255, 255]
      ensures endJump == |code| - 2
    {
      hide Encode, Op16;
      var elseJump := EmitJump(OP_JUMP_IF_FALSE);
      endJump := EmitJump(OP_JUMP);
      PatchJump(elseJump, old(code), OP_JUMP_IF_FALSE, [OP_JUMP, 255, 255]);
    }

    method OrOperator(prec: nat, ghost left: Expr, ghost code0: seq<byte>, ghost consts0: seq<Const>)
      returns (ghost e: Expr)
      requires 0 < pos <= |tokens| && !hadError && prec >= PREC_ASSIGNMENT && tokens[pos - 1] == TOr && Prec(tokens[pos - 1]) >= prec
      requires Emits(code0, consts0, GenExpr(left, locals, |consts0|), code, constants)
      requires GenExpr(left, locals, |consts0|).ok
      modifies `pos, `code, `constants, `hadError
      ensures pos <= |tokens|
      ensures hadError ==> !Compiles(ParseInfix(tokens, old(pos) - 1, prec, left), locals, consts0)
      ensures !hadError ==>
        && old(pos) <= pos
        && ParseInfix(tokens, old(pos) - 1, prec, left) == ParseInfix(tokens, pos, prec, e)
        && GenExpr(e, locals, |consts0|).ok && Emits(code0, consts0, GenExpr(e, locals, |consts0|), code, constants)
      decreases |tokens| - pos, 4
    {
      hide GenExpr, ParsePrefix, ParseExpr, ParseInfix, Encode, Join, BinCode, AndCode, OrCode, Branch, SkipLines, Size, Op, Op16, Prec;
      ghost var a := GenExpr(left, locals, |consts0|);
      ghost var pre := code0 + Encode(a.code) + Encode(Op16(OP_JUMP_IF_FALSE, 3));
      var endJump := OrJumps();
      EmitByte(OP_POP);
      ghost var r := ParseExpr(tokens, pos, PREC_OR);
      e := if r.Some? then Or(left, r.value.0) else left;
      PairTurn(tokens, pos - 1, prec, left, r, PREC_OR, e, locals, consts0);
      if r.Some? { GenOr(left, r.value.0, locals, |consts0|); }
      ghost var k1 := |constants|;
      ParsePrecedence(PREC_OR);
      if hadError { return; }
      ghost var b := GenExpr(r.value.0, locals, k1);
      EncodeOp(OP_POP);
      assert code == pre + [OP_JUMP, 255, 255] + ([OP_POP] + Encode(b.code));
      PatchJump(endJump, pre, OP_JUMP, [OP_POP] + Encode(b.code));
      OrLaid(code0, consts0, a, b);
    }

    /** `c ? t : f`, from the token after `?` on. */
    method Conditional(prec: nat, ghost left: Expr, ghost code0: seq<byte>, ghost consts0: seq<Const>)
      returns (ghost e: Expr)
      requires 0 < pos <= |tokens| && !hadError && prec >= PREC_ASSIGNMENT && tokens[pos - 1] == TQuestion
      requires Prec(tokens[pos - 1]) >= prec
      requires Emits(code0, consts0, GenExpr(left, locals, |consts0|), code, constants)
      requires GenExpr(left, locals, |consts0|).ok
      modifies `pos, `code, `constants, `hadError
      ensures pos <= |tokens|
      ensures hadError ==> !Compiles(ParseInfix(tokens, old(pos) - 1, prec, left), locals, consts0)
      ensures !hadError ==>
        && old(pos) <= pos
        && ParseInfix(tokens, old(pos) - 1, prec, left) == ParseInfix(tokens, pos, prec, e)
        && GenExpr(e, locals, |consts0|).ok && Emits(code0, consts0, GenExpr(e, locals, |consts0|), code, constants)
      decreases |tokens| - pos, 5
    {
      hide GenExpr, ParsePrefix, ParseExpr, ParseInfix, Encode, Join, Branch, SkipLines, Size, Op, Op16, BranchOut, Emits;
      EmitsMeans(code0, consts0, GenExpr(left, locals, |consts0|), code, constants);
      ghost var at := pos - 1;
      ghost var t := ParseExpr(tokens, SkipLines(tokens, pos), PREC_CONDITIONAL);
      e := left;
      var elseJump := ThenArm();
      if hadError {
        CondSpoilt(tokens, at, prec, left, t, locals, consts0);
        return;
      }
      ghost var c := GenExpr(left, locals, |consts0|);
      ghost var a := GenExpr(t.value.0, locals, |consts0| + |c.consts|);
      ghost var pre := code[..|code| - 3];
      ghost var d;
      e, d := ColonAndElse(elseJump, pre, prec, at, left, t.value.0, t.value.1, c, a, consts0);
      CondLaid(code0, consts0, c, a, d);
    }

    /** The rest of a conditional, whose first arm `t` ended at `tEnd`. */
    method ColonAndElse(elseJump: nat, ghost pre: seq<byte>, prec: nat, ghost at: nat, ghost left: Expr, ghost t: Expr,
                        ghost tEnd: nat, ghost c: Out, ghost a: Out, ghost consts0: seq<Const>)
      returns (ghost e: Expr, ghost d: Out)
      requires at < pos <= |tokens| && !hadError && tokens[at] == TQuestion && PREC_ASSIGNMENT <= prec <= PREC_CONDITIONAL
      requires ParseExpr(tokens, SkipLines(tokens, at + 1), PREC_CONDITIONAL) == Some((t, tEnd)) && pos == SkipLines(tokens, tEnd)
      requires c == GenExpr(left, locals, |consts0|) && a == GenExpr(t, locals, |consts0| + |c.consts|)
      requires c.ok && a.ok && 4 + Size(a.code) <= MAX_OPERAND && constants == consts0 + c.consts + a.consts
      requires code == pre + [OP_JUMP, 255, 255] && elseJump == |pre| + 1
      modifies `pos, `code, `constants, `hadError
      ensures pos <= |tokens|
      ensures hadError ==> !Compiles(ParseInfix(tokens, at, prec, left), locals, consts0)
      ensures !hadError ==>
        && old(pos) <= pos && ParseInfix(tokens, at, prec, left) == ParseInfix(tokens, pos, prec, e)
        && GenExpr(e, locals, |consts0|) == BranchOut(c, a, d) && d.ok && 1 + Size(d.code) <= MAX_OPERAND
        && constants == consts0 + c.consts + a.consts + d.consts
        && code == pre + Encode(Op16(OP_JUMP, 1 + Size(d.code))) + ([OP_POP] + Encode(d.code))
      decreases |tokens| - pos, 5
    {
      hide GenExpr, ParsePrefix, ParseExpr, ParseInfix, Encode, Join, Branch, SkipLines, Size, Op, Op16, BranchOut, Emits;
      e, d := left, c;
      EmitByte(OP_POP);
      Consume(TColon);
      if hadError {
        CondTurn(tokens, at, prec, left, Some((t, tEnd)), None, locals, consts0);
        return;
      }
      ghost var f := ParseExpr(tokens, SkipLines(tokens, pos), PREC_ASSIGNMENT);
      d := ElseParts(at, prec, left, t, tEnd, f, c, a, locals, consts0);
      if f.Some? { e := Cond(left, t, f.value.0); }
      ElseArm(elseJump, pre);
    }

    /** What the second arm of a conditional has to add. */
    lemma {:induction false} ElseParts(at: nat, prec: nat, left: Expr, t: Expr, tEnd: nat, f: Parsed<Expr>, c: Out, a: Out,
                                       locals: seq<Local>, consts0: seq<Const>) returns (d: Out)
      requires at < |tokens| && tokens[at] == TQuestion && PREC_ASSIGNMENT <= prec <= PREC_CONDITIONAL
      requires ParseExpr(tokens, SkipLines(tokens, at + 1), PREC_CONDITIONAL) == Some((t, tEnd))
      requires Peek(tokens, SkipLines(tokens, tEnd)) == TColon
      requires f == ParseExpr(tokens, SkipLines(tokens, SkipLines(tokens, tEnd) + 1), PREC_ASSIGNMENT)
      requires c == GenExpr(left, locals, |consts0|) && a == GenExpr(t, locals, |consts0| + |c.consts|)
      requires c.ok && a.ok && 4 + Size(a.code) <= MAX_OPERAND
      ensures var all := ParseInfix(tokens, at, prec, left);
              if f.None? then all.None? else
              var e := Cond(left, t, f.value.0);
              && d == GenExpr(f.value.0, locals, |consts0| + |c.consts| + |a.consts|)
              && all == ParseInfix(tokens, f.value.1, prec, e) && GenExpr(e, locals, |consts0|) == BranchOut(c, a, d)
              && (!(d.ok && 1 + Size(d.code) <= MAX_OPERAND) ==> !Compiles(all, locals, consts0))
    {
      hide GenExpr, ParsePrefix, ParseExpr, ParseInfix, SkipLines, Size, BranchOut;
      d := c;
      CondTurn(tokens, at, prec, left, Some((t, tEnd)), f, locals, consts0);
      if f.Some? {
        d := GenExpr(f.value.0, locals, |consts0| + |c.consts| + |a.consts|);
        GenCond(left, t, f.value.0, locals, |consts0|);
        BranchOk(c, a, d);
      }
    }

    /** The second arm; the jump past it is patched. */
    method ElseArm(elseJump: nat, ghost pre: seq<byte>)
      requires pos <= |tokens| && !hadError && code == pre + [OP_JUMP, 255, 255] + Encode(Op(OP_POP)) && elseJump == |pre| + 1
      modifies `pos, `code, `constants, `hadError
      ensures pos <= |tokens|
      ensures var f := ParseExpr(tokens, SkipLines(tokens, old(pos)), PREC_ASSIGNMENT);
              && hadError == !(Compiles(f, locals, old(constants))
                               && 1 + Size(GenExpr(f.value.0, locals, |old(constants)|).code) <= MAX_OPERAND)
              && (!hadError ==>
                    var d := GenExpr(f.value.0, locals, |old(constants)|);
                    && pos == f.value.1 && constants == old(constants) + d.consts
                    && code == pre + Encode(Op16(OP_JUMP, 1 + Size(d.code))) + ([OP_POP] + Encode(d.code)))
      decreases |tokens| - pos, 4
    {
      hide GenExpr, ParsePrefix, ParseExpr, ParseInfix, Encode, SkipLines, Size, Op, Op16;
      IgnoreWhitespace();
      ghost var f := ParseExpr(tokens, pos, PREC_ASSIGNMENT);
      ParsePrecedence(PREC_ASSIGNMENT);
      if hadError { return; }
      ghost var d := GenExpr(f.value.0, locals, |old(constants)|);
      EncodeOp(OP_POP);
      assert code == pre + [OP_JUMP, 255, 255] + ([OP_POP] + Encode(d.code));
      PatchJump(elseJump, pre, OP_JUMP, [OP_POP] + Encode(d.code));
    }

    /** The first arm, with the jump over it patched and the jump past the second open. */
    method ThenArm() returns (elseJump: nat)
      requires pos <= |tokens| && !hadError
      modifies `pos, `code, `constants, `hadError
      ensures pos <= |tokens|
      ensures var t := ParseExpr(tokens, SkipLines(tokens, old(pos)), PREC_CONDITIONAL);
              && hadError == !(Compiles(t, locals, old(constants))
                               && 4 + Size(GenExpr(t.value.0, locals, |old(constants)|).code) <= MAX_OPERAND)
              && (!hadError ==>
                    var a := GenExpr(t.value.0, locals, |old(constants)|);
                    && pos == SkipLines(tokens, t.value.1) && old(pos) < pos && constants == old(constants) + a.consts
                    && code == old(code) + Encode(Op16(OP_JUMP_IF_FALSE, 4 + Size(a.code))) + ([OP_POP] + Encode(a.code))
                             + [OP_JUMP, 255, 255]
                    && elseJump == |code| - 2)
      decreases |tokens| - pos, 4
    {
      hide GenExpr, ParsePrefix, ParseExpr, ParseInfix, Encode, Join, BinCode, AndCode, OrCode, Branch, SkipLines, Size, Op, Op16;
      ghost var pre := code;
      elseJump := 0;
      var thenJump := EmitJump(OP_JUMP_IF_FALSE);
      EncodeOp(OP_POP);
      EmitByte(OP_POP);
      IgnoreWhitespace();
      ghost var t := ParseExpr(tokens, pos, PREC_CONDITIONAL);
      ParsePrecedence(PREC_CONDITIONAL);
      if hadError { return; }
      IgnoreWhitespace();
      ghost var a := GenExpr(t.value.0, locals, |old(constants)|);
      ghost var arm := [OP_POP] + Encode(a.code);
      assert code == pre + [OP_JUMP_IF_FALSE, 255, 255] + arm;
      elseJump := EmitJump(OP_JUMP);
      assert code == pre + [OP_JUMP_IF_FALSE, 255, 255] + (arm + [OP_JUMP, 255, 255]);
      PatchJump(thenJump, pre, OP_JUMP_IF_FALSE, arm + [OP_JUMP, 255, 255]);
    }

    method EmitOperator(op: BinOp)
      modifies `code
      ensures code == old(code) + Encode(BinCode(op))
    {
      EncodeBin(op);
      if op.Ne? {
        code := code + [OP_EQUAL, OP_NOT];
      } else if op.Ge? {
        code := code + [OP_LESS, OP_NOT];
      } else if op.Le? {
        code := code + [OP_GREATER, OP_NOT];
      } else {
        code := code + [BinByte(op)];
      }
    }

    // ----- prefixes -----

    /** What may begin an expression. */
    method Prefix(prec: nat)
      requires pos < |tokens| && !hadError && prec >= PREC_ASSIGNMENT
      modifies `pos, `code, `constants, `hadError
      ensures pos <= |tokens|
      ensures var r := ParsePrefix(tokens, old(pos), prec);
              && hadError == !Compiles(r, locals, old(constants))
              && (!hadError ==> pos == r.value.1 && Emits(old(code), old(constants),
                                GenExpr(r.value.0, locals, |old(constants)|), code, constants))
      decreases |tokens| - pos, 1
    {
      hide GenExpr, ParseExpr, ParseInfix, SkipLines, Emits;
      var t := Current();
      pos := pos + 1;
      if t.TLiteral? {
        EmitLiteral(t.lit, prec);
      } else if t.TIdentifier? {
        NamedVariable(t.name, prec);
      } else if t == TLParen {
        Grouping(prec);
      } else if PrefixOp(t).Some? {
        UnaryOperator(t, prec);
      } else {
        hadError := true;
      }
    }

    method EmitLiteral(l: Literal, prec: nat)
      requires 0 < pos <= |tokens| && !hadError && tokens[pos - 1] == TLiteral(l)
      modifies `pos, `code, `constants, `hadError
      ensures pos <= |tokens|
      ensures var r := ParsePrefix(tokens, old(pos) - 1, prec);
              && hadError == !Compiles(r, locals, old(constants))
              && (!hadError ==> pos == r.value.1 && Emits(old(code), old(constants),
                                GenExpr(r.value.0, locals, |old(constants)|), code, constants))
      decreases |tokens| - pos, 0
    {
      hide GenExpr, ParseExpr, ParseInfix, Encode, Join, BinCode, UpdateCode, SkipLines, Size, Op, Op16;
      GenOfLiteral(l, locals, |constants|);
      if l == LNil {
        EmitByte(OP_NIL);
      } else if l == LTrue {
        EmitByte(OP_TRUE);
      } else if l == LFalse {
        EmitByte(OP_FALSE);
      } else {
        var k := MakeConstant(Val(LiteralValue(l)));
        if hadError { return; }
        EmitByteAndShort(OP_CONSTANT, k);
      }
    }

    method Grouping(prec: nat)
      requires 0 < pos <= |tokens| && !hadError && tokens[pos - 1] == TLParen
      modifies `pos, `code, `constants, `hadError
      ensures pos <= |tokens|
      ensures var r := ParsePrefix(tokens, old(pos) - 1, prec);
              && hadError == !Compiles(r, locals, old(constants))
              && (!hadError ==> pos == r.value.1 && Emits(old(code), old(constants),
                                GenExpr(r.value.0, locals, |old(constants)|), code, constants))
      decreases |tokens| - pos, 4
    {
      hide GenExpr, ParseExpr, ParseInfix, Encode, Join, BinCode, UpdateCode, SkipLines, Size, Op, Op16;
      IgnoreWhitespace();
      ParsePrecedence(PREC_ASSIGNMENT);
      if hadError { return; }
      IgnoreWhitespace();
      Consume(TRParen);
    }

    method UnaryOperator(t: Token, prec: nat)
      requires 0 < pos <= |tokens| && !hadError && tokens[pos - 1] == t && PrefixOp(t).Some? && !t.TLiteral? && !t.TIdentifier? && t != TLParen
      modifies `pos, `code, `constants, `hadError
      ensures pos <= |tokens|
      ensures var r := ParsePrefix(tokens, old(pos) - 1, prec);
              && hadError == !Compiles(r, locals, old(constants))
              && (!hadError ==> pos == r.value.1 && Emits(old(code), old(constants),
                                GenExpr(r.value.0, locals, |old(constants)|), code, constants))
      decreases |tokens| - pos, 4
    {
      hide GenExpr, ParseExpr, ParseInfix, Encode, Join, BinCode, UpdateCode, SkipLines, Size, Op, Op16;
      hide UnCode;
      var op := PrefixOp(t).value;
      ghost var r := ParseExpr(tokens, pos, PREC_UNARY);
      if r.Some? { GenUnary(op, r.value.0, locals, |constants|); }
      ParsePrecedence(PREC_UNARY);
      if hadError { return; }
      ghost var a := GenExpr(r.value.0, locals, |old(constants)|);
      ghost var code1 := code;
      EncodeUn(op);
      if op == Negate {
        code := code + [OP_NEGATE];
      } else if op == Not {
        code := code + [OP_NOT];
      } else if op == BitNot {
        code := code + [OP_BIT_NOT];
      }
      EncodeJoin(a.code, UnCode(op));
      assert code == code1 + Encode(UnCode(op));
      assert old(code) + Encode(a.code) + Encode(UnCode(op)) == old(code) + (Encode(a.code) + Encode(UnCode(op)));
    }

    method NamedVariable(x: string, prec: nat)
      requires 0 < pos <= |tokens| && !hadError && tokens[pos - 1] == TIdentifier(x) && prec >= PREC_ASSIGNMENT
      modifies `pos, `code, `constants, `hadError
      ensures pos <= |tokens|
      ensures var r := ParsePrefix(tokens, old(pos) - 1, prec);
              && hadError == !Compiles(r, locals, old(constants))
              && (!hadError ==> pos == r.value.1 && Emits(old(code), old(constants),
                                GenExpr(r.value.0, locals, |old(constants)|), code, constants))
      decreases |tokens| - pos, 4
    {
      hide GenExpr, ParseExpr, ParseInfix, Encode, Join, BinCode, UpdateCode, SkipLines, Size, Op, Op16;
      hide ParsePrefix, PlaceOf, Emits;
      var place := PlaceName(x);
      PrefixOfName(tokens, pos - 1, prec, x, locals, old(constants));
      if hadError { return; }
      var next := Current();
      if prec > PREC_ASSIGNMENT || !AssignLike(next) {
        EmitByteAndShort(if place.local then OP_GET_LOCAL else OP_GET_GLOBAL, place.arg);
        GetEmitted(x, locals, old(code), old(constants), place);
      } else {
        Assignment(x, place, old(code), old(constants));
      }
    }

    /** Finds where `x` lives, adding a constant for the name of a global. */
    method PlaceName(x: string) returns (place: Place)
      requires !hadError
      modifies `constants, `hadError
      ensures var pl := PlaceOf(locals, x, |old(constants)|);
              && hadError == !pl.ok
              && (!hadError ==> place == pl && constants == old(constants) + pl.consts)
    {
      var slot := ResolveLocal(x);
      if slot >= 0 {
        if locals[slot].depth == -1 { hadError := true; }
        place := Place(true, slot, [], !hadError);
        assert constants == constants + [];
      } else {
        var k := MakeConstant(Val(Str(x)));
        place := Place(false, k, [Val(Str(x))], !hadError);
      }
    }

    /** `=`, a compound assignment, `++` or `--` after a name that has been resolved. */
    method Assignment(x: string, place: Place, ghost code0: seq<byte>, ghost consts0: seq<Const>)
      requires 0 < pos <= |tokens| && !hadError && tokens[pos - 1] == TIdentifier(x) && AssignLike(Current())
      requires place == PlaceOf(locals, x, |consts0|) && place.ok && code == code0 && constants == consts0 + place.consts
      modifies `pos, `code, `constants, `hadError
      ensures pos <= |tokens|
      ensures var r := ParsePrefix(tokens, old(pos) - 1, PREC_ASSIGNMENT);
              && hadError == !Compiles(r, locals, consts0)
              && (!hadError ==> pos == r.value.1 && Emits(code0, consts0, GenExpr(r.value.0, locals, |consts0|), code, constants))
      decreases |tokens| - pos, 3
    {
      hide GenExpr, ParseExpr, ParsePrefix, Encode, Join, BinCode, UpdateCode, SkipLines, Size, Op, Get, Set, PlaceOf;
      var t := Current();
      pos := pos + 1;
      PrefixOfAssignment(tokens, pos - 2, x, locals, consts0);
      if t == TEqual {
        ghost var b := AssignValue(place);
        AssignLaid(code0, place, b.code);
        assert consts0 + place.consts + b.consts == consts0 + (place.consts + b.consts);
      } else if t.TAssign? {
        ghost var b := UpdateValue(place, PlainOp(t.aop));
        UpdateLaid(code0, place, b.code, BinCode(PlainOp(t.aop)));
        assert consts0 + place.consts + b.consts == consts0 + (place.consts + b.consts);
      } else {
        StepValue(place, if t == TIncrement then Add else Sub);
        UpdateLaid(code0, place, Op(OP_ONE), BinCode(if t == TIncrement then Add else Sub));
        assert constants == consts0 + (place.consts + []);
      }
    }

    method EmitGet(place: Place)
      modifies `code
      ensures code == old(code) + Encode(Get(place))
    {
      hide Encode, Op16;
      EmitByteAndShort(if place.local then OP_GET_LOCAL else OP_GET_GLOBAL, place.arg);
    }

    method EmitSet(place: Place)
      modifies `code
      ensures code == old(code) + Encode(Set(place))
    {
      hide Encode, Op16;
      EmitByteAndShort(if place.local then OP_SET_LOCAL else OP_SET_GLOBAL, place.arg);
    }

    /** The value assigned, then the store. */
    method AssignValue(place: Place) returns (ghost b: Out)
      requires pos <= |tokens| && !hadError
      modifies `pos, `code, `constants, `hadError
      ensures pos <= |tokens|
      ensures var r := ParseExpr(tokens, old(pos), PREC_ASSIGNMENT);
              && hadError == !Compiles(r, locals, old(constants))
              && (!hadError ==> && b == GenExpr(r.value.0, locals, |old(constants)|) && pos == r.value.1
                                && constants == old(constants) + b.consts && code == old(code) + Encode(b.code) + Encode(Set(place)))
      decreases |tokens| - pos, 4
    {
      hide GenExpr, ParseExpr, Encode, Set;
      ghost var r := ParseExpr(tokens, pos, PREC_ASSIGNMENT);
      b := if r.Some? then GenExpr(r.value.0, locals, |constants|) else NOTHING;
      ParsePrecedence(PREC_ASSIGNMENT);
      if hadError { return; }
      EmitSet(place);
    }

    /** The old value, the operand, the operator, then the store. */
    method UpdateValue(place: Place, op: BinOp) returns (ghost b: Out)
      requires pos <= |tokens| && !hadError
      modifies `pos, `code, `constants, `hadError
      ensures pos <= |tokens|
      ensures var r := ParseExpr(tokens, old(pos), PREC_ASSIGNMENT);
              && hadError == !Compiles(r, locals, old(constants))
              && (!hadError ==> && b == GenExpr(r.value.0, locals, |old(constants)|) && pos == r.value.1
                                && constants == old(constants) + b.consts
                                && code == old(code) + Encode(Get(place)) + Encode(b.code) + Encode(BinCode(op)) + Encode(Set(place)))
      decreases |tokens| - pos, 4
    {
      hide GenExpr, ParseExpr, Encode, Get, Set, BinCode;
      ghost var r := ParseExpr(tokens, pos, PREC_ASSIGNMENT);
      b := if r.Some? then GenExpr(r.value.0, locals, |constants|) else NOTHING;
      EmitGet(place);
      ParsePrecedence(PREC_ASSIGNMENT);
      if hadError { return; }
      EmitOperator(op);
      EmitSet(place);
    }

    /** One more, or one less. */
    method StepValue(place: Place, op: BinOp)
      modifies `code
      ensures code == old(code) + Encode(Get(place)) + Encode(Op(OP_ONE)) + Encode(BinCode(op)) + Encode(Set(place))
    {
      hide Encode, Get, Set, BinCode, Op;
      EmitGet(place);
      EmitByte(OP_ONE);
      EmitOperator(op);
      EmitSet(place);
    }

    // ----- statements -----

    ghost function Here(): Blob reads this { Blob(code, constants, locals) }

    ghost function InnerLoop(): Loop reads this { Loop(innermostLoopStart, innermostLoopScopeDepth, loopLocals) }

    /** Between statements: no error yet, no local deeper than the current scope. */
    ghost predicate Sound()
      reads this
    {
      !hadError && pos <= |tokens| && -1 <= innermostLoopStart <= |code| && Shallow(locals, scopeDepth)
    }

    /** The goal has been reached, back in the scope and loop where it was set, or an error has
        been reported because there was nothing to reach. */
    ghost predicate Reached(g: Goal, depth: nat, loop: Loop)
      reads this
    {
      if g.None? then hadError
      else !hadError && pos == g.value.1 && Here() == g.value.0 && scopeDepth == depth && InnerLoop() == loop
    }

    method Expression()
      requires pos <= |tokens| && !hadError
      modifies `pos, `code, `constants, `hadError
      ensures Reached(ExprGoal(tokens, old(pos), old(Here())), scopeDepth, InnerLoop())
      ensures !hadError ==> old(pos) < pos <= |tokens| && |old(code)| <= |code|
    {
      hide ParseExpr, GenExpr, Encode;
      ParsePrecedence(PREC_ASSIGNMENT);
    }

    /** Back to byte `start`. */
    method EmitLoop(start: nat)
      requires start <= |code| && !hadError
      modifies `code, `hadError
      ensures code == old(code) + Encode(Back(|old(code)|, start))
      ensures hadError == !BackFits(|old(code)|, start)
    {
      hide Encode;
      code := code + [OP_LOOP];
      var offset := |code| - start + 2;
      if offset > MAX_OPERAND {
        hadError := true;
      }
      code := code + [offset / 256 % 256];
      code := code + [offset % 256];
      EncodeOp16(OP_LOOP, offset);
    }

    method ConsumeStatementEnd()
      requires pos <= |tokens| && !hadError
      modifies `pos, `hadError
      ensures var end := StatementEnd(tokens, old(pos));
              hadError == end.None? && (!hadError ==> pos == end.value)
    {
      if Current() == TRBrace { return; }
      var semicolon := Match(TSemicolon);
      if !semicolon {
        if Current() == TEof { return; }
        Consume(TNewline);
        if hadError { return; }
      }
      ghost var start := pos;
      while Current() == TSemicolon || Current() == TNewline
        invariant !hadError && start <= pos <= |tokens| && SkipEnds(tokens, start) == SkipEnds(tokens, pos)
        decreases |tokens| - pos
      {
        pos := pos + 1;
      }
    }

    /** Any statement, with the newlines around it. */
    method Statement()
      requires Sound()
      modifies this
      ensures Reached(StmtGoal(tokens, old(pos), old(Here()), old(scopeDepth), old(InnerLoop())), old(scopeDepth), old(InnerLoop()))
      ensures !hadError ==> Sound() && old(pos) < pos && |old(code)| <= |code|
      decreases |tokens| - pos, 9
    {
      hide StmtGoal, BareGoal, SkipLines;
      ghost var b, depth, loop := Here(), scopeDepth, InnerLoop();
      StmtForm(tokens, pos, b, depth, loop);
      IgnoreWhitespace();
      if pos >= |tokens| {
        hadError := true;
        return;
      }
      ghost var start := pos;
      BareStatement();
      BareKeeps(tokens, start, b, depth, loop);
      if hadError { return; }
      IgnoreWhitespace();
    }

    method BareStatement()
      requires Sound() && pos < |tokens|
      modifies this
      ensures Reached(BareGoal(tokens, old(pos), old(Here()), old(scopeDepth), old(InnerLoop())), old(scopeDepth), old(InnerLoop()))
      decreases |tokens| - pos, 8
    {
      hide BareGoal, Reached;
      var t := Current();
      if Keyword(t) { pos := pos + 1; }
      if t == TEcho {
        EchoStatement();
      } else if t == TIf {
        IfStatement();
      } else if t == TDo {
        DoWhileStatement();
      } else if t == TWhile {
        WhileStatement();
      } else if t == TIter {
        IterStatement();
      } else if t == TUsing {
        UsingStatement();
      } else if t == TContinue {
        ContinueStatement();
      } else if t == TBreak {
        BreakStatement();
      } else if t == TReturn {
        ReturnStatement();
      } else if t == TLBrace {
        BlockStatement();
      } else {
        ExpressionStatement();
      }
    }

    method ExpressionStatement()
      requires Sound() && pos < |tokens| && !Keyword(Current())
      modifies this
      ensures Reached(BareGoal(tokens, old(pos), old(Here()), old(scopeDepth), old(InnerLoop())), old(scopeDepth), old(InnerLoop()))
    {
      hide BareGoal, ExprGoal, StatementEnd, Encode;
      ExpressionForm(tokens, pos, Here(), scopeDepth, InnerLoop());
      Expression();
      if hadError { return; }
      EmitByte(OP_POP);
      EncodeOp(OP_POP);
      ConsumeStatementEnd();
    }

    method EchoStatement()
      requires Sound() && 0 < pos && tokens[pos - 1] == TEcho
      modifies this
      ensures Reached(BareGoal(tokens, old(pos) - 1, old(Here()), old(scopeDepth), old(InnerLoop())), old(scopeDepth), old(InnerLoop()))
    {
      hide BareGoal, ExprGoal, StatementEnd, Encode;
      ExpressionForm(tokens, pos - 1, Here(), scopeDepth, InnerLoop());
      Expression();
      if hadError { return; }
      EmitByte(OP_ECHO);
      EncodeOp(OP_ECHO);
      ConsumeStatementEnd();
    }

    method ReturnStatement()
      requires Sound() && 0 < pos && tokens[pos - 1] == TReturn
      modifies this
      ensures Reached(BareGoal(tokens, old(pos) - 1, old(Here()), old(scopeDepth), old(InnerLoop())), old(scopeDepth), old(InnerLoop()))
    {
      hide BareGoal, ExprGoal, StatementEnd, Encode;
      ReturnForm(tokens, pos - 1, Here(), scopeDepth, InnerLoop());
      var ended := Match(TSemicolon);
      if !ended { ended := Match(TNewline); }
      if ended {
        EmitReturn();
      } else {
        Expression();
        if hadError { return; }
        EmitByte(OP_RETURN);
        EncodeOp(OP_RETURN);
        ConsumeStatementEnd();
      }
    }

    method EmitReturn()
      modifies `code
      ensures code == old(code) + [OP_EMPTY, OP_RETURN]
    {
      code := code + [OP_EMPTY];
      code := code + [OP_RETURN];
    }

    /** A placeholder, to be patched at the end of the loop; no local is dropped. */
    method BreakStatement()
      requires Sound() && 0 < pos && tokens[pos - 1] == TBreak
      modifies this
      ensures Reached(BareGoal(tokens, old(pos) - 1, old(Here()), old(scopeDepth), old(InnerLoop())), old(scopeDepth), old(InnerLoop()))
    {
      hide BareGoal, StatementEnd;
      BreakForm(tokens, pos - 1, Here(), scopeDepth, InnerLoop());
      if innermostLoopStart == -1 {
        hadError := true;
        return;
      }
      var _ := EmitJump(OP_BREAK_PL);
      ConsumeStatementEnd();
    }

    method ContinueStatement()
      requires Sound() && 0 < pos && tokens[pos - 1] == TContinue
      modifies this
      ensures Reached(BareGoal(tokens, old(pos) - 1, old(Here()), old(scopeDepth), old(InnerLoop())), old(scopeDepth), old(InnerLoop()))
    {
      hide BareGoal, StatementEnd, Deeper, Pops, Encode, Back;
      ContinueForm(tokens, pos - 1, Here(), scopeDepth, InnerLoop());
      if innermostLoopStart == -1 {
        hadError := true;
        return;
      }
      DiscardLocals(innermostLoopScopeDepth);
      ghost var n := Deeper(locals, innermostLoopScopeDepth);
      EmitLoop(innermostLoopStart);
      assert code == old(code) + (Encode(Pops(n)) + Encode(Back(|old(code)| + n, innermostLoopStart)));
      if hadError { return; }
      ConsumeStatementEnd();
    }

    /** One pop for each local declared deeper than `depth`; the locals stay declared. */
    method DiscardLocals(depth: int)
      modifies `code
      ensures code == old(code) + Encode(Pops(Deeper(locals, depth)))
    {
      hide Encode, Deeper, Pops;
      var i := |locals|;
      ghost var n := 0;
      PopsEncoded(0);
      assert locals[..|locals|] == locals;
      while i > 0 && locals[i - 1].depth > depth
        invariant 0 <= i <= |locals|
        invariant code == old(code) + Encode(Pops(n)) && n + Deeper(locals[..i], depth) == Deeper(locals, depth)
      {
        DeeperPrefix(locals, i, depth);
        code := code + [OP_POP];
        i := i - 1;
        PopsEncoded(n);
        n := n + 1;
      }
      DeeperPrefix(locals, i, depth);
    }

    // ----- blocks and declarations -----

    method BlockStatement()
      requires Sound() && 0 < pos && tokens[pos - 1] == TLBrace
      modifies this
      ensures Reached(BareGoal(tokens, old(pos) - 1, old(Here()), old(scopeDepth), old(InnerLoop())), old(scopeDepth), old(InnerLoop()))
      decreases |tokens| - pos, 13
    {
      hide BareGoal, DeclsGoal, SkipLines, Deeper, Pops, Encode;
      ghost var depth := scopeDepth;
      BlockForm(tokens, pos - 1, Here(), depth, InnerLoop());
      scopeDepth := scopeDepth + 1;
      BlockBody();
      if hadError { return; }
      EndScope();
    }

    /** Declarations and statements up to the closing brace. */
    method BlockBody()
      requires Sound()
      modifies this
      ensures var ds := DeclsGoal(tokens, SkipLines(tokens, old(pos)), old(Here()), old(scopeDepth), old(InnerLoop()));
              if ds.None? || !Peek(tokens, ds.value.1).TRBrace? then hadError
              else Reached(Some((ds.value.0, ds.value.1 + 1)), old(scopeDepth), old(InnerLoop()))
      ensures !hadError ==> pos <= |tokens|
      decreases |tokens| - pos, 12
    {
      hide DeclsGoal, SkipLines;
      IgnoreWhitespace();
      Declarations();
      if hadError { return; }
      Consume(TRBrace);
    }

    method Declarations()
      requires Sound()
      modifies this
      ensures Reached(DeclsGoal(tokens, old(pos), old(Here()), old(scopeDepth), old(InnerLoop())), old(scopeDepth), old(InnerLoop()))
      ensures !hadError ==> pos <= |tokens|
      decreases |tokens| - pos, 11
    {
      hide DeclsGoal, Shallow;
      ghost var depth, loop := scopeDepth, InnerLoop();
      ghost var goal := DeclsGoal(tokens, pos, Here(), depth, loop);
      while Current() != TRBrace && Current() != TEof
        invariant Sound() && old(pos) <= pos && scopeDepth == depth && InnerLoop() == loop
        invariant goal == DeclsGoal(tokens, pos, Here(), depth, loop)
        decreases |tokens| - pos
      {
        Declaration();
        if hadError { return; }
      }
      DeclsEnd(tokens, pos, Here(), depth, loop);
    }

    /** One declaration or statement of a block. */
    method Declaration()
      requires Sound() && Current() != TRBrace && Current() != TEof
      modifies this
      ensures var g := DeclsGoal(tokens, old(pos), old(Here()), old(scopeDepth), old(InnerLoop()));
              if hadError then g.None? else
              && Sound() && old(pos) < pos && scopeDepth == old(scopeDepth) && InnerLoop() == old(InnerLoop())
              && g == DeclsGoal(tokens, pos, Here(), scopeDepth, InnerLoop())
      decreases |tokens| - pos, 10
    {
      hide DeclsGoal, StmtGoal, VarsGoal, SkipLines, StatementEnd;
      DeclsForm(tokens, pos, Here(), scopeDepth, InnerLoop());
      IgnoreWhitespace();
      var declared := Match(TVar);
      if declared {
        VarList();
        if hadError { return; }
        ConsumeStatementEnd();
        if hadError { return; }
        IgnoreWhitespace();
      } else {
        Statement();
      }
    }

    /** Declared names, with their initializers, up to the end of the list. */
    method VarList()
      requires Sound()
      modifies `pos, `code, `constants, `locals, `hadError
      ensures Reached(VarsGoal(tokens, old(pos), old(Here()), scopeDepth), scopeDepth, InnerLoop())
      ensures !hadError ==> Sound() && old(pos) < pos && |old(code)| <= |code|
    {
      hide VarsGoal, VarGoal, SkipLines;
      ghost var b, start := Here(), pos;
      var more := true;
      while more
        invariant !hadError && Sound() && old(pos) <= pos && |old(code)| <= |code|
        invariant more ==> VarsGoal(tokens, start, b, scopeDepth) == VarsGoal(tokens, pos, Here(), scopeDepth)
        invariant !more ==> old(pos) < pos && VarsGoal(tokens, start, b, scopeDepth) == Some((Here(), pos))
        decreases |tokens| - pos, if more then 1 else 0
      {
        VarsForm(tokens, pos, Here(), scopeDepth);
        VarDeclarator();
        if hadError { return; }
        more := Match(TComma);
        if more { IgnoreWhitespace(); }
      }
    }

    /** One declared name: it counts as a local while its initializer is compiled. */
    method VarDeclarator()
      requires Sound()
      modifies `pos, `code, `constants, `locals, `hadError
      ensures Reached(VarGoal(tokens, old(pos), old(Here()), scopeDepth), scopeDepth, InnerLoop())
      ensures !hadError ==> Sound() && old(pos) < pos && |old(code)| <= |code|
    {
      hide ParseExpr, GenExpr, Encode, Clashes;
      if !Current().TIdentifier? {
        hadError := true;
        return;
      }
      var x := Current().name;
      pos := pos + 1;
      DeclareVariable(x);
      if hadError { return; }
      assert locals == old(locals) + [Local(x, -1)];
      VarInitializer();
      if hadError { return; }
      MarkInitialized();
    }

    /** The value of a declared name, which is nil if none is given. */
    method VarInitializer()
      requires pos <= |tokens| && !hadError
      modifies `pos, `code, `constants, `hadError
      ensures var initialized := Peek(tokens, old(pos)).TEqual?; var e := ParseExpr(tokens, old(pos) + 1, PREC_ASSIGNMENT);
              if initialized && e.None? then hadError else
              var o := if initialized then GenExpr(e.value.0, locals, |old(constants)|) else Out(Op(OP_NIL), [], true, true);
              if !o.ok then hadError else
              && !hadError && pos == (if initialized then e.value.1 else old(pos)) <= |tokens|
              && code == old(code) + Encode(o.code) && constants == old(constants) + o.consts
    {
      hide ParseExpr, GenExpr, Encode, Op;
      var initialized := Match(TEqual);
      if initialized {
        Expression();
      } else {
        EmitByte(OP_NIL);
        assert constants == old(constants) + [];
      }
    }

    /** Lists a local that is not usable yet, unless the name is taken in this scope. */
    method DeclareVariable(x: string)
      requires !hadError
      modifies `locals, `hadError
      ensures hadError == (Clashes(old(locals), scopeDepth, x) || |old(locals)| >= MAX_LOCALS)
      ensures !hadError ==> locals == old(locals) + [Local(x, -1)]
    {
      var i := |locals|;
      assert locals[..|locals|] == locals;
      while i > 0 && !(locals[i - 1].depth != -1 && locals[i - 1].depth < scopeDepth)
        invariant 0 <= i <= |locals| && !hadError && locals == old(locals)
        invariant Clashes(locals, scopeDepth, x) == Clashes(locals[..i], scopeDepth, x)
      {
        assert locals[..i][..i - 1] == locals[..i - 1];
        if locals[i - 1].name == x {
          hadError := true;
          return;
        }
        i := i - 1;
      }
      if |locals| == MAX_LOCALS || |locals| > MAX_LOCALS {
        hadError := true;
        return;
      }
      locals := locals + [Local(x, -1)];
    }

    method MarkInitialized()
      requires |locals| > 0
      modifies `locals
      ensures locals == old(locals)[..|old(locals)| - 1] + [Local(old(locals)[|old(locals)| - 1].name, scopeDepth)]
    {
      locals := locals[|locals| - 1 := Local(locals[|locals| - 1].name, scopeDepth)];
    }

    /** Leaves the innermost scope, popping its locals. */
    method EndScope()
      requires scopeDepth > 0 && !hadError
      modifies `scopeDepth, `code, `locals
      ensures scopeDepth == old(scopeDepth) - 1 && Here() == ClosedBlob(old(Here()), scopeDepth)
    {
      hide Encode, Deeper, Pops;
      scopeDepth := scopeDepth - 1;
      ghost var n := 0;
      PopsEncoded(0);
      DeeperStep(locals, scopeDepth);
      while |locals| > 0 && locals[|locals| - 1].depth > scopeDepth
        invariant scopeDepth == old(scopeDepth) - 1
        invariant |locals| + n == |old(locals)| && locals == old(locals)[..|locals|]
        invariant code == old(code) + Encode(Pops(n)) && n + Deeper(locals, scopeDepth) == Deeper(old(locals), scopeDepth)
      {
        DeeperStep(locals, scopeDepth);
        code := code + [OP_POP];
        locals := locals[..|locals| - 1];
        PopsEncoded(n);
        n := n + 1;
      }
      DeeperStep(locals, scopeDepth);
    }

    // ----- choices and loops -----

    method IfStatement()
      requires Sound() && 0 < pos && tokens[pos - 1] == TIf
      modifies this
      ensures Reached(BareGoal(tokens, old(pos) - 1, old(Here()), old(scopeDepth), old(InnerLoop())), old(scopeDepth), old(InnerLoop()))
      decreases |tokens| - pos, 12
    {
      hide BareGoal, ExprGoal, StmtGoal, ElseGoal, Encode, Op16, Op, Suffix;
      ghost var depth, loop := scopeDepth, InnerLoop();
      IfForm(tokens, pos - 1, Here(), depth, loop);
      Expression();
      if hadError { return; }
      ghost var head := Here();
      ghost var t := StmtGoal(tokens, pos, Tested(head), depth, loop);
      StmtKeeps(tokens, pos, Tested(head), depth, loop);
      var elseJump := IfThen();
      if hadError { return; }
      ghost var arm := Suffix(t.value.0.code, |head.code| + 4);
      ghost var pre := head.code + Encode(Op16(OP_JUMP_IF_FALSE, 4 + |arm|)) + ([OP_POP] + arm);
      ElseRebase(tokens, pos, Turned(t.value.0), More(Here(), [OP_POP]), depth, loop);
      IfElse(elseJump, pre);
    }

    /** The first arm: the jump over it patched, the jump past the second still open. */
    method IfThen() returns (elseJump: nat)
      requires Sound()
      modifies this
      ensures var t := StmtGoal(tokens, old(pos), Tested(old(Here())), old(scopeDepth), old(InnerLoop()));
              if t.None? then hadError else
              var arm := Suffix(t.value.0.code, |old(code)| + 4);
              if 4 + |arm| > MAX_OPERAND then hadError else
              && Sound() && old(pos) < pos == t.value.1 && scopeDepth == old(scopeDepth) && InnerLoop() == old(InnerLoop())
              && Here() == Blob(old(code) + Encode(Op16(OP_JUMP_IF_FALSE, 4 + |arm|)) + ([OP_POP] + arm) + HOLE,
                                t.value.0.consts, old(locals))
              && |code| == |t.value.0.code| + 3 && elseJump == |code| - 2
      decreases |tokens| - pos, 11
    {
      hide StmtGoal, Encode, Op16, Op, Suffix;
      ghost var head, depth, loop := Here(), scopeDepth, InnerLoop();
      elseJump := 0;
      var thenJump := EmitJump(OP_JUMP_IF_FALSE);
      EmitByte(OP_POP);
      EncodeOp(OP_POP);
      assert Here() == Tested(head);
      StmtKeeps(tokens, pos, Here(), depth, loop);
      Statement();
      if hadError { return; }
      ghost var arm := Suffix(code, |head.code| + 4);
      AfterTest(head.code, code);
      elseJump := EmitJump(OP_JUMP);
      ghost var post := [OP_POP] + arm + HOLE;
      PatchJump(thenJump, head.code, OP_JUMP_IF_FALSE, post);
    }

    /** The second arm, if there is one. */
    method OptionalElse()
      requires Sound()
      modifies this
      ensures Reached(ElseGoal(tokens, old(pos), old(Here()), old(scopeDepth), old(InnerLoop())), old(scopeDepth), old(InnerLoop()))
      ensures !hadError ==> old(code) <= code && locals == old(locals)
      decreases |tokens| - pos, 10
    {
      hide StmtGoal;
      StmtKeeps(tokens, pos + 1, Here(), scopeDepth, InnerLoop());
      var matched := Match(TElse);
      if matched { Statement(); }
    }

    /** The second arm; both arms end here. */
    method IfElse(elseJump: nat, ghost pre: seq<byte>)
      requires Sound() && code == pre + HOLE && elseJump == |pre| + 1
      modifies this
      ensures var f := ElseGoal(tokens, old(pos), More(old(Here()), [OP_POP]), old(scopeDepth), old(InnerLoop()));
              if f.None? then hadError else
              var other := Suffix(f.value.0.code, |pre| + 4);
              if 1 + |other| > MAX_OPERAND then hadError
              else Reached(Some((Blob(pre + Encode(Op16(OP_JUMP, 1 + |other|)) + ([OP_POP] + other), f.value.0.consts, old(locals)),
                                 f.value.1)), old(scopeDepth), old(InnerLoop()))
      decreases |tokens| - pos, 11
    {
      hide ElseGoal, Encode, Op16, Op, Suffix;
      EmitByte(OP_POP);
      EncodeOp(OP_POP);
      assert Here() == More(old(Here()), [OP_POP]);
      OptionalElse();
      if hadError { return; }
      ghost var other := Suffix(code, |pre| + 4);
      AfterHole(pre, code);
      PatchJump(elseJump, pre, OP_JUMP, [OP_POP] + other);
    }

    method WhileStatement()
      requires Sound() && 0 < pos && tokens[pos - 1] == TWhile
      modifies this
      ensures Reached(BareGoal(tokens, old(pos) - 1, old(Here()), old(scopeDepth), old(InnerLoop())), old(scopeDepth), old(InnerLoop()))
      decreases |tokens| - pos, 13
    {
      hide BareGoal;
      var surroundingStart, surroundingDepth := innermostLoopStart, innermostLoopScopeDepth;
      innermostLoopStart, loopLocals := |code|, |locals|;
      WhileLoop(old(InnerLoop()));
      innermostLoopStart, innermostLoopScopeDepth, loopLocals := surroundingStart, surroundingDepth, old(loopLocals);
    }

    method WhileLoop(ghost outer: Loop)
      requires Sound() && 0 < pos && tokens[pos - 1] == TWhile
      requires InnerLoop() == Loop(|code|, outer.depth, |locals|)
      modifies this
      ensures Reached(BareGoal(tokens, old(pos) - 1, old(Here()), old(scopeDepth), outer), old(scopeDepth), old(InnerLoop()))
      decreases |tokens| - pos, 12
    {
      hide BareGoal, ParseExpr, ParseStmt, GenExpr, GenStmt, Encode, Op16, Op, Size, RawWhile, PatchBreaks, PatchFits, Regular, BackFits;
      ghost var b := Here();
      WhileForm(tokens, pos - 1, b, scopeDepth, outer);
      ghost var e := ParseExpr(tokens, pos, PREC_ASSIGNMENT);
      Expression();
      if hadError { return; }
      ghost var a := GenExpr(e.value.0, locals, |b.consts|);
      ghost var s := ParseStmt(tokens, pos);
      WhileBody(b.code, a);
      if hadError { return; }
      ghost var o := GenStmt(s.value.0, locals, scopeDepth, |b.code| + Size(a.code) + 4, |b.consts| + |a.consts|, InnerLoop());
      EndLoop(b.code, RawWhile(a.code, o.code, |b.code|));
    }

    /** From the exit test of a `while` loop to the pop its exit jumps to. */
    method WhileBody(ghost pre: seq<byte>, ghost a: Out)
      requires Sound() && code == pre + Encode(a.code) && innermostLoopStart == |pre|
      modifies this
      ensures var s := ParseStmt(tokens, old(pos));
              if s.None? then hadError else
              var o := GenStmt(s.value.0, old(locals), old(scopeDepth), |old(code)| + 4, |old(constants)|, old(InnerLoop()));
              if !o.ok || 4 + Size(o.code) > MAX_OPERAND || !BackFits(|old(code)| + 4 + Size(o.code), |pre|) then hadError else
              && !hadError && pos == s.value.1 && scopeDepth == old(scopeDepth) && InnerLoop() == old(InnerLoop())
              && locals == old(locals) && constants == old(constants) + o.consts
              && code == pre + Encode(RawWhile(a.code, o.code, |pre|))
      decreases |tokens| - pos, 11
    {
      hide ParseStmt, GenStmt, Encode, Op16, Op, Size, Back, BackFits, RawWhile;
      ghost var test := code;
      var exitJump := EmitJump(OP_JUMP_IF_FALSE);
      EmitByte(OP_POP);
      EncodeOp(OP_POP);
      ghost var s := ParseStmt(tokens, pos);
      ghost var k, at := |constants|, |code|;
      Statement();
      if hadError { return; }
      ghost var o := GenStmt(s.value.0, locals, scopeDepth, at, k, InnerLoop());
      EmitLoop(innermostLoopStart);
      if hadError { return; }
      ghost var post := [OP_POP] + Encode(o.code) + Encode(Back(at + Size(o.code), |pre|));
      BackLength(at + Size(o.code), |pre|);
      assert code == test + [OP_JUMP_IF_FALSE, 255, 255] + post;
      PatchJump(exitJump, test, OP_JUMP_IF_FALSE, post);
      if hadError { return; }
      EmitByte(OP_POP);
      RawWhileLaid(pre, a.code, o.code);
    }

    method DoWhileStatement()
      requires Sound() && 0 < pos && tokens[pos - 1] == TDo
      modifies this
      ensures Reached(BareGoal(tokens, old(pos) - 1, old(Here()), old(scopeDepth), old(InnerLoop())), old(scopeDepth), old(InnerLoop()))
      decreases |tokens| - pos, 13
    {
      hide BareGoal;
      var surroundingStart, surroundingDepth := innermostLoopStart, innermostLoopScopeDepth;
      innermostLoopStart, loopLocals := |code|, |locals|;
      DoLoop(old(InnerLoop()));
      innermostLoopStart, innermostLoopScopeDepth, loopLocals := surroundingStart, surroundingDepth, old(loopLocals);
    }

    method DoLoop(ghost outer: Loop)
      requires Sound() && 0 < pos && tokens[pos - 1] == TDo
      requires InnerLoop() == Loop(|code|, outer.depth, |locals|)
      modifies this
      ensures Reached(BareGoal(tokens, old(pos) - 1, old(Here()), old(scopeDepth), outer), old(scopeDepth), old(InnerLoop()))
      decreases |tokens| - pos, 12
    {
      hide BareGoal, ParseExpr, ParseStmt, GenExpr, GenStmt, Encode, Op16, Op, Size, RawDo, PatchBreaks, PatchFits, Regular, BackFits;
      ghost var b := Here();
      DoForm(tokens, pos - 1, b, scopeDepth, outer);
      ghost var s := ParseStmt(tokens, pos);
      Statement();
      if hadError { return; }
      ghost var o := GenStmt(s.value.0, locals, scopeDepth, |b.code|, |b.consts|, InnerLoop());
      ghost var e := ParseExpr(tokens, pos + 1, PREC_ASSIGNMENT);
      DoRest(b.code, o);
      if hadError { return; }
      ghost var a := GenExpr(e.value.0, locals, |b.consts| + |o.consts|);
      EndLoop(b.code, RawDo(o.code, a.code, |b.code|));
    }

    /** The condition of a `do` loop and the jumps that end it. */
    method DoRest(ghost pre: seq<byte>, ghost o: Out)
      requires pos <= |tokens| && !hadError && code == pre + Encode(o.code) && innermostLoopStart == |pre|
      modifies `pos, `code, `constants, `hadError
      ensures if !Peek(tokens, old(pos)).TWhile? then hadError else
              var e := ParseExpr(tokens, old(pos) + 1, PREC_ASSIGNMENT);
              if e.None? then hadError else
              var a := GenExpr(e.value.0, locals, |old(constants)|);
              if !a.ok || !BackFits(|pre| + Size(o.code) + Size(a.code) + 4, |pre|) then hadError else
              && !hadError && pos == e.value.1 && constants == old(constants) + a.consts
              && code == pre + Encode(RawDo(o.code, a.code, |pre|))
    {
      hide ParseExpr, GenExpr, Encode, Op16, Op, Size, RawDo, BackFits;
      Consume(TWhile);
      if hadError { return; }
      ghost var e := ParseExpr(tokens, pos, PREC_ASSIGNMENT);
      Expression();
      if hadError { return; }
      DoTail(pre, o, GenExpr(e.value.0, locals, |old(constants)|));
    }

    /** The jumps that end a `do` loop. */
    method DoTail(ghost pre: seq<byte>, ghost o: Out, ghost a: Out)
      requires !hadError && code == pre + Encode(o.code) + Encode(a.code) && innermostLoopStart == |pre|
      modifies `code, `hadError
      ensures hadError == !BackFits(|pre| + Size(o.code) + Size(a.code) + 4, |pre|)
      ensures !hadError ==> code == pre + Encode(RawDo(o.code, a.code, |pre|))
    {
      hide Encode, Op16, Op, Size, Back, BackFits, RawDo;
      ghost var test := code;
      var exitJump := EmitJump(OP_JUMP_IF_FALSE);
      EmitByte(OP_POP);
      EncodeOp(OP_POP);
      ghost var at := |code|;
      EmitLoop(innermostLoopStart);
      if hadError { return; }
      ghost var post := [OP_POP] + Encode(Back(at, |pre|));
      BackLength(at, |pre|);
      assert code == test + [OP_JUMP_IF_FALSE, 255, 255] + post;
      PatchJump(exitJump, test, OP_JUMP_IF_FALSE, post);
      EmitByte(OP_POP);
      RawDoLaid(pre, o.code, a.code);
    }

    // ----- iter -----

    method IterStatement()
      requires Sound() && 0 < pos && tokens[pos - 1] == TIter
      modifies this
      ensures Reached(BareGoal(tokens, old(pos) - 1, old(Here()), old(scopeDepth), old(InnerLoop())), old(scopeDepth), old(InnerLoop()))
      decreases |tokens| - pos, 14
    {
      hide BareGoal, InitGoal, IterGoal, ClosedBlob;
      ghost var loop := InnerLoop();
      IterForm(tokens, pos - 1, Here(), scopeDepth, loop);
      scopeDepth := scopeDepth + 1;
      Initializer();
      if hadError { return; }
      var surroundingStart, surroundingDepth := innermostLoopStart, innermostLoopScopeDepth;
      innermostLoopStart, innermostLoopScopeDepth, loopLocals := |code|, scopeDepth, |locals|;
      IterLoopParts(loop);
      if hadError { return; }
      innermostLoopStart, innermostLoopScopeDepth, loopLocals := surroundingStart, surroundingDepth, old(loopLocals);
      EndScope();
    }

    /** The first clause of an `iter`: nothing, declarations or an expression. */
    method Initializer()
      requires Sound()
      modifies `pos, `code, `constants, `locals, `hadError
      ensures Reached(InitGoal(tokens, old(pos), old(Here()), scopeDepth, InnerLoop()), scopeDepth, InnerLoop())
      ensures !hadError ==> Sound() && old(pos) < pos && |old(code)| <= |code|
    {
      hide InitGoal, VarsGoal, ExprGoal, SkipLines;
      InitForm(tokens, pos, Here(), scopeDepth, InnerLoop());
      var nothing := Match(TSemicolon);
      if nothing { return; }
      var declares := Match(TVar);
      if declares {
        InitialVars();
      } else {
        InitialExpression();
      }
    }

    method InitialVars()
      requires Sound()
      modifies `pos, `code, `constants, `locals, `hadError
      ensures var x := VarsGoal(tokens, old(pos), old(Here()), scopeDepth);
              if x.None? || !Peek(tokens, x.value.1).TSemicolon? then hadError
              else Reached(Some((x.value.0, SkipLines(tokens, x.value.1 + 1))), scopeDepth, InnerLoop())
      ensures !hadError ==> Sound() && old(pos) < pos && |old(code)| <= |code|
    {
      hide VarsGoal, SkipLines;
      VarList();
      if hadError { return; }
      Consume(TSemicolon);
      if hadError { return; }
      IgnoreWhitespace();
    }

    method InitialExpression()
      requires Sound()
      modifies `pos, `code, `constants, `hadError
      ensures var x := ExprGoal(tokens, old(pos), old(Here()));
              if x.None? || !Peek(tokens, x.value.1).TSemicolon? then hadError
              else Reached(Some((More(x.value.0, [OP_POP]), SkipLines(tokens, x.value.1 + 1))), scopeDepth, InnerLoop())
      ensures !hadError ==> Sound() && old(pos) < pos && |old(code)| <= |code|
    {
      hide ExprGoal, SkipLines, Encode;
      Expression();
      if hadError { return; }
      Consume(TSemicolon);
      if hadError { return; }
      IgnoreWhitespace();
      EmitByte(OP_POP);
      EncodeOp(OP_POP);
    }

    /** Test, increment and body; `continue` in the body goes to the increment if there is one. */
    method IterLoopParts(ghost outer: Loop)
      requires Sound() && InnerLoop() == Loop(|code|, scopeDepth, |locals|)
      modifies this
      ensures var g := IterGoal(tokens, old(pos), old(Here()), old(scopeDepth), outer);
              if g.None? then hadError else !hadError && pos == g.value.1 && Here() == g.value.0 && scopeDepth == old(scopeDepth)
      decreases |tokens| - pos, 13
    {
      hide IterGoal, ParseTest, ParseIncrement, ParseStmt, GenOpt, GenStmt, Encode, Size, IterFits, RawIter, RawPre, PatchBreaks, PatchFits, Regular, IterStep, Op16;
      ghost var b := Here();
      IterLoopForm(tokens, pos, b, scopeDepth, outer);
      ghost var cond := ParseTest(tokens, pos);
      var exitJump := IterTest();
      if hadError { return; }
      ghost var c := GenOpt(cond.value.0, locals, |b.consts|);
      NothingEmpty(locals, |b.consts|);
      ghost var incr := ParseIncrement(tokens, pos);
      IterRest(exitJump, b, cond.value.0.Some?, c);
      if hadError { return; }
      ghost var i := GenOpt(incr.value.0, locals, |b.consts| + |c.consts|);
      ghost var sh := IterShape(cond.value.0.Some?, incr.value.0.Some?, Size(c.code), Size(i.code), |b.code|);
      ghost var o := GenStmt(ParseStmt(tokens, incr.value.1).value.0, locals, scopeDepth, sh.AtBody(),
                             |b.consts| + |c.consts| + |i.consts|, Loop(sh.Start(), scopeDepth, |locals|));
      RawPreSize(sh, c.code, o.code);
      EndLoop(b.code + RawPre(sh, c.code, o.code), RawIter(sh, c.code, i.code, o.code));
    }

    method IterTest() returns (exitJump: int)
      requires pos <= |tokens| && !hadError
      modifies `pos, `code, `constants, `hadError
      ensures var t := ParseTest(tokens, old(pos));
              if t.None? then hadError else
              var c := GenOpt(t.value.0, locals, |old(constants)|);
              if !c.ok then hadError else
              && !hadError && old(pos) < pos == t.value.1 && constants == old(constants) + c.consts
              && code == old(code) + TestHole(t.value.0.Some?, c.code)
              && exitJump == if t.value.0.Some? then |old(code)| + Size(c.code) + 1 else -1
    {
      hide ParseExpr, GenExpr, Encode, SkipLines;
      exitJump := -1;
      var nothing := Match(TSemicolon);
      if nothing {
        assert constants == old(constants) + [];
        return;
      }
      Expression();
      if hadError { return; }
      Consume(TSemicolon);
      if hadError { return; }
      IgnoreWhitespace();
      exitJump := EmitJump(OP_JUMP_IF_FALSE);
      EmitByte(OP_POP);
      EncodeOp(OP_POP);
    }

    /** The increment sits before the body and is jumped over on the way in. */
    method IterIncrement(ghost at: nat)
      requires Sound() && innermostLoopStart == at
      modifies `pos, `code, `constants, `hadError, `innermostLoopStart
      ensures var r := ParseIncrement(tokens, old(pos));
              if r.None? then hadError else
              var i := GenOpt(r.value.0, locals, |old(constants)|);
              var back := |old(code)| + 3 + Size(i.code) + 1;
              if !i.ok || (r.value.0.Some? && (4 + Size(i.code) > MAX_OPERAND || !BackFits(back, at))) then hadError else
              && Sound() && old(pos) <= pos == r.value.1 && constants == old(constants) + i.consts
              && innermostLoopStart == (if r.value.0.Some? then |old(code)| + 3 else at)
              && code == old(code) + if r.value.0.Some?
                   then Encode(Op16(OP_JUMP, 4 + Size(i.code))) + (Encode(i.code) + [OP_POP] + Encode(Back(back, at))) else []
    {
      hide ParseExpr, GenExpr, Encode, SkipLines, Op16, Back, BackFits, Shallow;
      if Current() == TLBrace {
        assert constants == old(constants) + [] && code == old(code) + [];
        return;
      }
      var bodyJump := EmitJump(OP_JUMP);
      var incrementStart := |code|;
      ghost var e := ParseExpr(tokens, pos, PREC_ASSIGNMENT);
      Expression();
      if hadError { return; }
      ghost var i := GenExpr(e.value.0, locals, |old(constants)|);
      IgnoreWhitespace();
      EmitByte(OP_POP);
      EncodeOp(OP_POP);
      ghost var back := |code|;
      EmitLoop(innermostLoopStart);
      if hadError { return; }
      innermostLoopStart := incrementStart;
      ghost var post := Encode(i.code) + [OP_POP] + Encode(Back(back, at));
      BackLength(back, at);
      assert code == old(code) + [OP_JUMP, 255, 255] + post;
      PatchJump(bodyJump, old(code), OP_JUMP, post);
    }

    /** Increment, body and the jumps around them, after the test `c`. */
    method IterRest(exitJump: int, ghost b: Blob, ghost hasCond: bool, ghost c: Out)
      requires Sound() && innermostLoopStart == |b.code| && innermostLoopScopeDepth == scopeDepth && loopLocals == |locals|
      requires code == b.code + TestHole(hasCond, c.code) && c.ok && (!hasCond ==> Size(c.code) == 0)
      requires exitJump == if hasCond then |b.code| + Size(c.code) + 1 else -1
      modifies this
      ensures var r := ParseIncrement(tokens, old(pos));
              if r.None? then hadError else
              var i := GenOpt(r.value.0, old(locals), |old(constants)|); var s := ParseStmt(tokens, r.value.1);
              if !i.ok || s.None? then hadError else
              var sh := IterShape(hasCond, r.value.0.Some?, Size(c.code), Size(i.code), |b.code|);
              var o := GenStmt(s.value.0, old(locals), old(scopeDepth), sh.AtBody(), |old(constants)| + |i.consts|,
                               Loop(sh.Start(), old(scopeDepth), |old(locals)|));
              if !o.ok || !IterFits(sh, sh.AtBody() + Size(o.code)) then hadError else
              && !hadError && pos == s.value.1 && scopeDepth == old(scopeDepth) && locals == old(locals)
              && constants == old(constants) + i.consts + o.consts && innermostLoopStart == sh.Start()
              && code == b.code + RawPre(sh, c.code, o.code) + Encode(RawIter(sh, c.code, i.code, o.code))
      decreases |tokens| - pos, 12
    {
      hide ParseIncrement, ParseStmt, GenOpt, GenStmt, Encode, Size, RawIter, RawPre, Op16, Back, BackFits;
      ghost var r := ParseIncrement(tokens, pos);
      TestHoleSize(hasCond, c.code);
      IterIncrement(|b.code|);
      if hadError { return; }
      ghost var i := GenOpt(r.value.0, locals, |old(constants)|);
      ghost var sh := IterShape(hasCond, r.value.0.Some?, Size(c.code), Size(i.code), |b.code|);
      StepEncoded(sh, i.code);
      StepSize(sh, i.code);
      ghost var s := ParseStmt(tokens, pos);
      ghost var at, k := |code|, |constants|;
      Statement();
      if hadError { return; }
      ghost var o := GenStmt(s.value.0, locals, scopeDepth, at, k, InnerLoop());
      IterTailJumps(exitJump, b.code, sh, c, i, o);
    }

    /** Back to the increment or the test, and the pop the exit of the test jumps to. */
    method IterTailJumps(exitJump: int, ghost pre: seq<byte>, ghost sh: IterShape, ghost c: Out, ghost i: Out, ghost o: Out)
      requires !hadError && innermostLoopStart == sh.Start() && sh.at == |pre| && sh.cond == Size(c.code) && sh.incr == Size(i.code)
      requires code == pre + TestHole(sh.hasCond, c.code) + Encode(IterStep(sh, i.code)) + Encode(o.code)
      requires |code| == sh.AtBody() + Size(o.code) && exitJump == if sh.hasCond then |pre| + Size(c.code) + 1 else -1
      modifies `code, `hadError
      ensures var atBack := sh.AtBody() + Size(o.code);
              hadError == !(BackFits(atBack, sh.Start()) && (sh.hasCond ==> atBack - sh.at - sh.cond <= MAX_OPERAND))
      ensures !hadError ==> code == pre + RawPre(sh, c.code, o.code) + Encode(RawIter(sh, c.code, i.code, o.code))
    {
      hide Encode, Op16, Op, Back, BackFits, IterStep, RawIter, RawPre, Size;
      ghost var atBack := |code|;
      RawIterLaid(pre, sh, c.code, i.code, o.code);
      EmitLoop(innermostLoopStart);
      if hadError { return; }
      if exitJump != -1 {
        ghost var post := [OP_POP] + Encode(IterStep(sh, i.code)) + Encode(o.code) + Encode(Back(atBack, sh.Start()));
        BackLength(atBack, sh.Start());
        assert code == pre + Encode(c.code) + [OP_JUMP_IF_FALSE, 255, 255] + post;
        PatchJump(exitJump, pre + Encode(c.code), OP_JUMP_IF_FALSE, post);
        EmitByte(OP_POP);
      }
    }

    // ----- using -----

    method UsingStatement()
      requires Sound() && 0 < pos && tokens[pos - 1] == TUsing
      modifies this
      ensures Reached(BareGoal(tokens, old(pos) - 1, old(Here()), old(scopeDepth), old(InnerLoop())), old(scopeDepth), old(InnerLoop()))
      decreases |tokens| - pos, 15
    {
      hide BareGoal, ExprGoal, CasesGoal, SkipLines, Encode, Op16;
      UsingForm(tokens, pos - 1, Here(), scopeDepth, InnerLoop());
      UsingHead();
      if hadError { return; }
      ghost var head := Here();
      var switchCode := EmitJump(OP_SWITCH);
      assert Here() == More(head, [OP_SWITCH, 255, 255]);
      UsingCases(switchCode, head);
    }

    /** The value to choose by, and the brace. */
    method UsingHead()
      requires Sound()
      modifies `pos, `code, `constants, `hadError
      ensures var x := ExprGoal(tokens, old(pos), old(Here()));
              if x.None? || !Peek(tokens, x.value.1).TLBrace? then hadError
              else Reached(Some((x.value.0, SkipLines(tokens, x.value.1 + 1))), scopeDepth, InnerLoop())
      ensures !hadError ==> Sound() && old(pos) < pos
    {
      hide ExprGoal, SkipLines;
      Expression();
      if hadError { return; }
      Consume(TLBrace);
      if hadError { return; }
      IgnoreWhitespace();
    }

    /** The cases, the jump table built from them, and the switch instruction that uses it. */
    method UsingCases(switchCode: nat, ghost head: Blob)
      requires Sound() && Here() == More(head, [OP_SWITCH, 255, 255]) && switchCode == |head.code| + 1
      modifies this
      ensures var c := CasesGoal(tokens, old(pos), old(Here()), old(scopeDepth), |old(code)|, old(InnerLoop()));
              if c.None? then hadError else
              var sw := |head.consts| + |c.value.consts|;
              if sw >= MAX_OPERAND then hadError else
              Reached(Some((Blob(head.code + Encode(Op16(OP_SWITCH, sw)) + c.value.code,
                                 head.consts + c.value.consts + [Switch(c.value.table, c.value.dflt, |c.value.code|)], head.locals),
                            c.value.pos)), old(scopeDepth), old(InnerLoop()))
      decreases |tokens| - pos, 14
    {
      hide CasesGoal, Encode, Op16, Weave, WeaveFits, Held, EndsAt;
      ghost var b := Here();
      var startOffset := |code|;
      var table, dflt, caseEnds;
      ghost var items, tail;
      table, dflt, caseEnds, items, tail := CaseList();
      if hadError { return; }
      PatchCases(caseEnds, b.code, items, tail);
      if hadError { return; }
      ghost var consts := constants[|b.consts|..];
      assert constants == head.consts + consts;
      var k := MakeConstant(Switch(table, dflt, |code| - startOffset));
      if hadError { return; }
      PatchSwitch(switchCode, k, head.code, Weave(items, tail));
    }

    /** Fills in the constant of the switch instruction. */
    method PatchSwitch(offset: nat, k: nat, ghost pre: seq<byte>, ghost post: seq<byte>)
      requires code == pre + [OP_SWITCH, 255, 255] + post && offset == |pre| + 1 && k < 65536
      modifies `code
      ensures code == pre + Encode(Op16(OP_SWITCH, k)) + post
    {
      hide Encode;
      EncodeOp16(OP_SWITCH, k);
      code := code[offset := k / 256 % 256];
      code := code[offset + 1 := k % 256];
      assert code == pre + ([OP_SWITCH] + Short(k)) + post;
    }

    // Where a list of cases stands, on the way to `goal`, when it began with the blob `b`.

    /** Before a case: every finished case in `items` has its jump. */
    ghost predicate AtCase(goal: Option<Cased>, b: Blob, table: map<Value, nat>, items: seq<seq<byte>>)
      reads this
    {
      && Sound() && code == b.code + Held(items) && b.consts <= constants && locals == b.locals
      && goal == Prepend(items, constants[|b.consts|..], table,
                         CasesGoal(tokens, pos, Here(), scopeDepth, |b.code|, InnerLoop()))
    }

    /** After the body `item` of a `when`, which still lacks its jump. */
    ghost predicate InCase(goal: Option<Cased>, b: Blob, table: map<Value, nat>, items: seq<seq<byte>>, item: seq<byte>)
      reads this
    {
      && Sound() && code == b.code + Held(items) + item && b.consts <= constants && locals == b.locals
      && goal == Prepend(items + [item], constants[|b.consts|..], table,
                         CasesGoal(tokens, pos, More(Here(), HOLE), scopeDepth, |b.code|, InnerLoop()))
    }

    /** After the body `item` of the default, which has to be the last. */
    ghost predicate InDefault(goal: Option<Cased>, b: Blob, table: map<Value, nat>, items: seq<seq<byte>>, item: seq<byte>, dflt: int)
      reads this
    {
      && Sound() && code == b.code + Held(items) + item && b.consts <= constants && locals == b.locals
      && goal == if Current() == TRBrace || Current() == TEof
                 then Finished(items, item, constants[|b.consts|..], table, dflt, if Current() == TRBrace then pos + 1 else pos)
                 else None
    }

    /** The cases: their labels go into the jump table, and each body but the default's is
        followed by a jump that is patched once the end is known. */
    method CaseList() returns (table: map<Value, nat>, dflt: int, caseEnds: seq<nat>, ghost items: seq<seq<byte>>, ghost tail: seq<byte>)
      requires Sound()
      modifies this
      ensures var g := CasesGoal(tokens, old(pos), old(Here()), old(scopeDepth), |old(code)|, old(InnerLoop()));
              if hadError then g.None? else
              && scopeDepth == old(scopeDepth) && InnerLoop() == old(InnerLoop()) && locals == old(locals)
              && code == old(code) + Held(items) + tail && old(constants) <= constants && EndsAt(caseEnds, |old(code)|, items)
              && g == Finished(items, tail, constants[|old(constants)|..], table, dflt, pos)
      decreases |tokens| - pos, 13
    {
      hide CasesGoal, Finished, Weave, WeaveFits, Held, Prepend, AtCase, InCase, InDefault;
      ghost var b, depth, loop := Here(), scopeDepth, InnerLoop();
      ghost var goal := CasesGoal(tokens, pos, b, depth, |b.code|, loop);
      var startOffset, state := |code|, 0;
      table, dflt, caseEnds, items, tail := map[], -1, [], [], [];
      assert AtCase(goal, b, table, items) by { FirstCase(goal, b); }
      while Current() != TRBrace && Current() != TEof
        invariant Sound() && old(pos) <= pos && scopeDepth == depth && InnerLoop() == loop && 0 <= state <= 2
        invariant state == 0 ==> AtCase(goal, b, table, items) && tail == []
        invariant state == 1 ==> InCase(goal, b, table, items, tail)
        invariant state == 2 ==> InDefault(goal, b, table, items, tail, dflt)
        invariant EndsAt(caseEnds, startOffset, items) && (state < 2 ==> dflt == -1)
        decreases |tokens| - pos
      {
        if state == 2 || (Current() != TWhen && Current() != TDefault) {
          CaseMisplaced(state, goal, b, table, items, tail, dflt);
          hadError := true;
          return;
        }
        if state == 1 {
          caseEnds := JumpPast(caseEnds, goal, b, table, items, tail);
          items, tail := items + [tail], [];
        }
        if Current() == TWhen {
          state := 1;
          table, tail := WhenCase(startOffset, table, goal, b, items);
        } else {
          state := 2;
          dflt, tail := DefaultCase(startOffset, table, goal, b, items);
        }
        if hadError { return; }
      }
      if state == 1 {
        caseEnds := JumpPast(caseEnds, goal, b, table, items, tail);
        items, tail := items + [tail], [];
      }
      CasesEnd(state, goal, b, table, items, tail, dflt);
      if Current() == TRBrace { pos := pos + 1; }
    }

    lemma {:induction false} FirstCase(goal: Option<Cased>, b: Blob)
      requires Sound() && b == Here() && goal == CasesGoal(tokens, pos, b, scopeDepth, |b.code|, InnerLoop())
      ensures AtCase(goal, b, map[], [])
    {
      hide CasesGoal, Prepend;
      PrependNothing(goal);
      assert Held([]) == [] && b.code + [] == b.code && constants[|b.consts|..] == [];
    }

    /** A statement before the first case, or anything but statements after the default. */
    lemma {:induction false} CaseMisplaced(state: int, goal: Option<Cased>, b: Blob, table: map<Value, nat>, items: seq<seq<byte>>,
        item: seq<byte>, dflt: int)
      requires Current() != TRBrace && Current() != TEof && 0 <= state <= 2
      requires state == 2 || (Current() != TWhen && Current() != TDefault)
      requires state == 0 ==> AtCase(goal, b, table, items)
      requires state == 1 ==> InCase(goal, b, table, items, item)
      requires state == 2 ==> InDefault(goal, b, table, items, item, dflt)
      ensures goal.None?
    {
      hide CasesGoal, Prepend, Held;
      if state < 2 {
        CasesForm(tokens, pos, if state == 0 then Here() else More(Here(), HOLE), scopeDepth, |b.code|, InnerLoop());
        NothingAfter(if state == 0 then items else items + [item], constants[|b.consts|..], table);
      }
    }

    /** The end of the list, every `when` closed by its jump. */
    lemma {:induction false} CasesEnd(state: int, goal: Option<Cased>, b: Blob, table: map<Value, nat>, items: seq<seq<byte>>,
        item: seq<byte>, dflt: int)
      requires Current() == TRBrace || Current() == TEof
      requires state == 2 ==> InDefault(goal, b, table, items, item, dflt)
      requires state != 2 ==> AtCase(goal, b, table, items) && item == [] && dflt == -1
      ensures code == b.code + Held(items) + item && b.consts <= constants && locals == b.locals && pos <= |tokens|
      ensures goal == Finished(items, item, constants[|b.consts|..], table, dflt, if Current() == TRBrace then pos + 1 else pos)
    {
      hide CasesGoal, Prepend, Held, Finished;
      if state != 2 {
        CasesForm(tokens, pos, Here(), scopeDepth, |b.code|, InnerLoop());
        PrependEnd(items, constants[|b.consts|..], table, if Current() == TRBrace then pos + 1 else pos);
      }
    }

    /** The jump from the end of a `when` to the end of the statement. */
    method JumpPast(ends: seq<nat>, ghost goal: Option<Cased>, ghost b: Blob, ghost table: map<Value, nat>,
                    ghost items: seq<seq<byte>>, ghost item: seq<byte>) returns (caseEnds: seq<nat>)
      requires InCase(goal, b, table, items, item) && EndsAt(ends, |b.code|, items)
      modifies `code
      ensures AtCase(goal, b, table, items + [item]) && EndsAt(caseEnds, |b.code|, items + [item])
    {
      hide CasesGoal, Prepend, Held, EndsAt;
      HeldAppend(items, item);
      EndsMore(ends, |b.code|, items, item);
      ghost var next := More(Here(), HOLE);
      var end := EmitJump(OP_JUMP);
      assert Here() == next;
      caseEnds := ends + [end];
    }

    /** The labels and the statements of one `when`. */
    method WhenCase(startOffset: nat, table0: map<Value, nat>, ghost goal: Option<Cased>, ghost b: Blob, ghost items: seq<seq<byte>>)
      returns (table: map<Value, nat>, ghost item: seq<byte>)
      requires AtCase(goal, b, table0, items) && Current() == TWhen && startOffset == |b.code|
      modifies this
      ensures if hadError then goal.None? else
              && InCase(goal, b, table, items, item) && Sound() && old(pos) < pos && scopeDepth == old(scopeDepth) && InnerLoop() == old(InnerLoop())
      decreases |tokens| - pos, 12
    {
      hide CasesGoal, CaseBodyGoal, Prepend, Held, LabelTable;
      ghost var here, consts := Here(), constants[|b.consts|..];
      CasesForm(tokens, pos, here, scopeDepth, |b.code|, InnerLoop());
      NothingAfter(items, consts, table0);
      pos, item := pos + 1, [];
      ghost var labels := ParseLabels(tokens, pos);
      table := Labels(table0, |code| - startOffset);
      if hadError { return; }
      ghost var start := pos;
      CaseBody();
      if hadError { return; }
      item := code[|here.code|..];
      ghost var more, added := constants[|here.consts|..], LabelTable(labels.value.0, |here.code| - |b.code|);
      PrependOne(items, consts, table0, item, more, added,
        CasesGoal(tokens, pos, More(Here(), HOLE), scopeDepth, |b.code|, InnerLoop()));
      assert constants[|b.consts|..] == consts + more;
      assert code == here.code + item;
    }

    method DefaultCase(startOffset: nat, ghost table: map<Value, nat>, ghost goal: Option<Cased>, ghost b: Blob, ghost items: seq<seq<byte>>)
      returns (dflt: int, ghost item: seq<byte>)
      requires AtCase(goal, b, table, items) && Current() == TDefault && startOffset == |b.code|
      modifies this
      ensures if hadError then goal.None? else
              && InDefault(goal, b, table, items, item, dflt) && Sound() && old(pos) < pos && scopeDepth == old(scopeDepth) && InnerLoop() == old(InnerLoop())
      decreases |tokens| - pos, 12
    {
      hide CasesGoal, CaseBodyGoal, Prepend, Held, Finished;
      ghost var here, consts := Here(), constants[|b.consts|..];
      CasesForm(tokens, pos, here, scopeDepth, |b.code|, InnerLoop());
      NothingAfter(items, consts, table);
      pos, item := pos + 1, [];
      dflt := |code| - startOffset;
      CaseBody();
      if hadError { return; }
      item := code[|here.code|..];
      ghost var more := constants[|here.consts|..];
      PrependLast(items, consts, table, item, more, dflt, if Current() == TRBrace then pos + 1 else pos);
      assert constants[|b.consts|..] == consts + more;
      assert code == here.code + item;
    }

    /** The constants of a `when`, each with the place of its body. */
    method Labels(table0: map<Value, nat>, offset: nat) returns (table: map<Value, nat>)
      requires pos <= |tokens| && !hadError
      modifies `pos, `hadError
      ensures var r := ParseLabels(tokens, old(pos));
              if r.None? then hadError else
              !hadError && pos == r.value.1 && table == table0 + LabelTable(r.value.0, offset)
    {
      hide LabelTable, ParseLabels, Labelled;
      table := table0;
      ghost var seen: seq<Literal> := [];
      var more := true;
      NoLabels(table0, offset);
      ghost var all := ParseLabels(tokens, pos);
      NoneLabelled(all);
      while more
        invariant !hadError && old(pos) <= pos <= |tokens| && table == table0 + LabelTable(seen, offset)
        invariant if more then all == Labelled(seen, ParseLabels(tokens, pos)) else all == Some((seen, pos))
        decreases |tokens| - pos, if more then 1 else 0
      {
        var t := Current();
        LabelsForm(tokens, pos, seen);
        if !t.TLiteral? || t.lit == LNil {
          hadError := true;
          return;
        }
        pos := pos + 1;
        table := table[LiteralValue(t.lit) := offset];
        MoreLabels(table0, seen, t.lit, offset);
        seen := seen + [t.lit];
        more := Match(TComma);
      }
    }

    /** The statements of one case. */
    method CaseBody()
      requires Sound()
      modifies this
      ensures Reached(CaseBodyGoal(tokens, old(pos), old(Here()), old(scopeDepth), old(InnerLoop())), old(scopeDepth), old(InnerLoop()))
      ensures !hadError ==> Sound() && old(pos) <= pos && old(code) <= code && old(constants) <= constants && locals == old(locals)
      decreases |tokens| - pos, 11
    {
      hide CaseBodyGoal, StmtGoal;
      ghost var b, depth, loop := Here(), scopeDepth, InnerLoop();
      CaseBodyForm(tokens, pos, b, depth, loop);
      while !EndsCase(Current())
        invariant Sound() && old(pos) <= pos && scopeDepth == depth && InnerLoop() == loop
        invariant old(code) <= code && old(constants) <= constants && locals == old(locals)
        invariant CaseBodyGoal(tokens, old(pos), b, depth, loop) == CaseBodyGoal(tokens, pos, Here(), depth, loop)
        invariant EndsCase(Current()) ==> CaseBodyGoal(tokens, pos, Here(), depth, loop) == Some((Here(), pos))
        decreases |tokens| - pos
      {
        CaseBodyForm(tokens, pos, Here(), depth, loop);
        StmtKeeps(tokens, pos, Here(), depth, loop);
        Statement();
        if hadError { return; }
        CaseBodyForm(tokens, pos, Here(), depth, loop);
      }
    }

    /** Patches the jumps at the ends of the cases. */
    method PatchCases(caseEnds: seq<nat>, ghost pre: seq<byte>, ghost items: seq<seq<byte>>, ghost tail: seq<byte>)
      requires !hadError && code == pre + Held(items) + tail && EndsAt(caseEnds, |pre|, items)
      modifies `code, `hadError
      ensures hadError == !WeaveFits(items, tail)
      ensures !hadError ==> code == pre + Weave(items, tail)
    {
      hide Encode, Op16, Weave, WeaveFits, Held, EndsAt;
      var i := 0;
      ghost var done := pre;
      EndsCount(caseEnds, |pre|, items);
      HeldNone(tail);
      assert items[..0] == [] && items[0..] == items;
      while i < |caseEnds|
        invariant 0 <= i <= |items| == |caseEnds| && !hadError && WeaveFits(items, tail) == WeaveFits(items[i..], tail)
        invariant code == done + Held(items[i..]) + tail && |done| == |pre| + |Held(items[..i])|
        invariant done + Weave(items[i..], tail) == pre + Weave(items, tail)
      {
        ghost var rest := items[i + 1..];
        WeaveStep(items, i, tail);
        EndsEntry(caseEnds, |pre|, items, i);
        ghost var before, post := done + items[i], Held(rest) + tail;
        assert code == before + [OP_JUMP, 255, 255] + post;
        PatchJump(caseEnds[i], before, OP_JUMP, post);
        done := before + Encode(Op16(OP_JUMP, |post|));
        if hadError { return; }
        i := i + 1;
        assert done + Weave(rest, tail) == before + (Encode(Op16(OP_JUMP, |post|)) + Weave(rest, tail));
      }
      assert items[i..] == [];
    }

    // ----- functions -----

    /** A whole function, from its parameter list to the brace that ends its body. */
    method Function()
      requires pos == 0 && code == [] && constants == [] && locals == [] && scopeDepth == 0 && !hadError
      requires InnerLoop() == NO_LOOP
      modifies this
      ensures var g := FunctionGoal(tokens);
              if g.None? then hadError else !hadError && code == g.value.0 && constants == g.value.1
    {
      hide FunctionGoal, DeclsGoal, ParseParams, SkipLines, ParamLocals, DistinctNames;
      FunctionForm(tokens);
      NoParams();
      locals := [Local("", 0)];
      scopeDepth := scopeDepth + 1;
      Parameters();
      if hadError { return; }
      FunctionBody();
    }

    method FunctionBody()
      requires Sound()
      modifies this
      ensures var open := SkipLines(tokens, old(pos));
              if !Peek(tokens, open).TLBrace? then hadError else
              var ds := DeclsGoal(tokens, SkipLines(tokens, open + 1), old(Here()), old(scopeDepth), old(InnerLoop()));
              if ds.None? || !Peek(tokens, ds.value.1).TRBrace? then hadError
              else !hadError && code == ds.value.0.code + [OP_EMPTY, OP_RETURN] && constants == ds.value.0.consts
    {
      hide DeclsGoal, SkipLines;
      IgnoreWhitespace();
      Consume(TLBrace);
      if hadError { return; }
      BlockBody();
      if hadError { return; }
      EmitReturn();
    }

    /** The parameters in their parentheses; the callee is already in slot 0. */
    method Parameters()
      requires Sound() && scopeDepth == 1 && locals == ParamLocals([]) && pos == 0
      modifies `pos, `locals, `hadError
      ensures if !Peek(tokens, 0).TLParen? then hadError else
              var params := if Peek(tokens, 1).TRParen? then Some(([], 1)) else ParseParams(tokens, 1);
              if params.None? || !Peek(tokens, params.value.1).TRParen? || !DistinctNames(params.value.0)
                 || |ParamLocals(params.value.0)| > MAX_LOCALS then hadError
              else Sound() && pos == params.value.1 + 1 && locals == ParamLocals(params.value.0)
    {
      hide ParseParams, ParamLocals, DistinctNames;
      NoParams();
      Consume(TLParen);
      if hadError { return; }
      ghost var params := if Current() == TRParen then Some(([], 1)) else ParseParams(tokens, 1);
      if Current() != TRParen {
        FunctionArgs();
        if hadError { return; }
      }
      ParamsShallow(params.value.0);
      Consume(TRParen);
    }

    method FunctionArgs()
      requires Sound() && scopeDepth == 1 && locals == ParamLocals([])
      modifies `pos, `locals, `hadError
      ensures var r := ParseParams(tokens, old(pos));
              if r.None? || !DistinctNames(r.value.0) || |ParamLocals(r.value.0)| > MAX_LOCALS then hadError
              else !hadError && pos == r.value.1 <= |tokens| && locals == ParamLocals(r.value.0)
    {
      hide SkipLines, ParseParams, ParamLocals, DistinctNames, Shallow;
      ghost var all, seen: seq<string> := ParseParams(tokens, pos), [];
      var more := true;
      NoParams();
      if all.Some? { assert [] + all.value.0 == all.value.0; }
      while more
        invariant !hadError && old(pos) <= pos <= |tokens| && locals == ParamLocals(seen) && DistinctNames(seen)
        invariant |locals| == 1 + |seen| <= MAX_LOCALS
        invariant if more then all == Prefixed(seen, ParseParams(tokens, pos)) else all == Some((seen, pos))
        decreases |tokens| - pos, if more then 1 else 0
      {
        ParamsForm(tokens, pos, seen);
        if all.Some? { ParamsFault(seen, Peek(tokens, SkipLines(tokens, pos)), all.value.0); }
        ghost var x := Parameter(seen);
        if hadError { return; }
        seen := seen + [x];
        more := Match(TComma);
      }
    }

    /** One parameter. */
    method Parameter(ghost seen: seq<string>) returns (ghost x: string)
      requires !hadError && pos <= |tokens| && scopeDepth == 1 && locals == ParamLocals(seen) && DistinctNames(seen)
      modifies `pos, `locals, `hadError
      ensures var t := Peek(tokens, SkipLines(tokens, old(pos)));
              if !t.TIdentifier? || t.name in seen || 1 + |seen| >= MAX_LOCALS then hadError else
              && !hadError && x == t.name && old(pos) < pos == SkipLines(tokens, SkipLines(tokens, old(pos)) + 1) <= |tokens|
              && locals == ParamLocals(seen + [x]) && DistinctNames(seen + [x]) && |locals| == 2 + |seen|
    {
      hide SkipLines, ParamLocals, DistinctNames, Clashes;
      x := "";
      IgnoreWhitespace();
      if !Current().TIdentifier? {
        hadError := true;
        return;
      }
      var name := Current().name;
      x := name;
      pos := pos + 1;
      ParamsMore(seen, name);
      DeclareVariable(name);
      if hadError { return; }
      MarkInitialized();
      IgnoreWhitespace();
    }
  }
}
