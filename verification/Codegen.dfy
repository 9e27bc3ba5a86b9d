/** The code the compiler emits, as a function of the source tree. */
module Codegen {
  import opened Basics
  import opened Values
  import opened Bytecode
  import opened Syntax

  const MAX_OPERAND := 65535
  const MAX_LOCALS := 256

  /** A local is declared at depth -1 until its initializer has been compiled. */
  datatype Local = Local(name: string, depth: int)

  /** The innermost loop: where `continue` goes, the scope depth recorded for it, and how
      many locals were live when it was entered. */
  datatype Loop = Loop(start: int, depth: int, locals: nat)

  const NO_LOOP := Loop(-1, 0, 0)

  /** Emitted code with the constants it adds; `ok` when no compile error was reported,
      `tidy` when each jump out of a loop body finds the stack as the loop left it. */
  datatype Out = Out(code: Code, consts: seq<Const>, ok: bool, tidy: bool)

  datatype DeclsOut = DeclsOut(code: Code, consts: seq<Const>, ok: bool, tidy: bool, locals: seq<Local>)

  datatype CasesOut = CasesOut(code: Code, consts: seq<Const>, ok: bool, tidy: bool,
                               table: map<Value, nat>, dfltJump: int)

  // ----- locals -----

  /** The innermost local called `x`, or -1. */
  function Resolve(locals: seq<Local>, x: string): (i: int)
    ensures -1 <= i < |locals|
    ensures i >= 0 ==> locals[i].name == x
    ensures forall j :: i < j < |locals| ==> locals[j].name != x
  {
    if locals == [] then -1
    else if locals[|locals| - 1].name == x then |locals| - 1
    else Resolve(locals[..|locals| - 1], x)
  }

  /** A declaration clashes with a local of the same name in the same scope. */
  predicate Clashes(locals: seq<Local>, depth: int, x: string) {
    if locals == [] then false
    else
      var top := locals[|locals| - 1];
      if top.depth != -1 && top.depth < depth then false
      else top.name == x || Clashes(locals[..|locals| - 1], depth, x)
  }

  /** How many of the newest locals are declared deeper than `depth`. */
  function Deeper(locals: seq<Local>, depth: int): (n: nat)
    ensures n <= |locals|
  {
    if locals == [] || locals[|locals| - 1].depth <= depth then 0
    else 1 + Deeper(locals[..|locals| - 1], depth)
  }

  function Pops(n: nat): (c: Code)
    ensures Size(c) == n && NoBreaks(c)
  {
    if n == 0 then Nop else Join(Op(OP_POP), Pops(n - 1))
  }

  // ----- expressions -----

  /** Where a name lives: a stack slot, or a global named by a fresh constant. */
  datatype Place = Place(local: bool, arg: nat, consts: seq<Const>, ok: bool)

  function PlaceOf(locals: seq<Local>, x: string, k: nat): Place {
    var i := Resolve(locals, x);
    if i >= 0 then Place(true, i, [], locals[i].depth != -1)
    else Place(false, k, [Val(Str(x))], k < MAX_OPERAND)
  }

  function Get(p: Place): Code { Op16(if p.local then OP_GET_LOCAL else OP_GET_GLOBAL, p.arg) }

  function Set(p: Place): Code { Op16(if p.local then OP_SET_LOCAL else OP_SET_GLOBAL, p.arg) }

  function BinCode(op: BinOp): (c: Code)
    ensures NoBreaks(c)
  {
    match op
    case Add => Op(OP_ADD) case Sub => Op(OP_SUBTRACT) case Mul => Op(OP_MULTIPLY)
    case Div => Op(OP_DIVIDE) case Rem => Op(OP_REMINDER) case Pow => Op(OP_POW)
    case FloorDiv => Op(OP_F_DIVIDE)
    case Eq => Op(OP_EQUAL)
    case Ne => Join(Op(OP_EQUAL), Op(OP_NOT))
    case Gt => Op(OP_GREATER)
    case Ge => Join(Op(OP_LESS), Op(OP_NOT))
    case Lt => Op(OP_LESS)
    case Le => Join(Op(OP_GREATER), Op(OP_NOT))
    case BitAnd => Op(OP_AND) case BitOr => Op(OP_OR) case BitXor => Op(OP_XOR)
    case Shl => Op(OP_LSHIFT) case Shr => Op(OP_RSHIFT)
    case Range => Op(OP_RANGE)
  }

  function UnCode(op: UnOp): (c: Code)
    ensures NoBreaks(c)
  {
    match op
    case UPlus => Nop
    case Negate => Op(OP_NEGATE)
    case Not => Op(OP_NOT)
    case BitNot => Op(OP_BIT_NOT)
  }

  /** Load a name, apply `op` to it and the value of `r`, and store the result. */
  function UpdateCode(p: Place, r: Code, op: Code): (c: Code)
    ensures Size(c) == Size(r) + Size(op) + 6 && NoBreaks(c) == (NoBreaks(r) && NoBreaks(op))
  {
    Join(Get(p), Join(r, Join(op, Set(p))))
  }

  /** `b` runs only when the value of `a` holds, which it then replaces. */
  function AndCode(a: Code, b: Code): (c: Code)
    ensures Size(c) == Size(a) + Size(b) + 4 && NoBreaks(c) == (NoBreaks(a) && NoBreaks(b))
  {
    Join(a, Join(Op16(OP_JUMP_IF_FALSE, 1 + Size(b)), Join(Op(OP_POP), b)))
  }

  function OrCode(a: Code, b: Code): (c: Code)
    ensures Size(c) == Size(a) + Size(b) + 7 && NoBreaks(c) == (NoBreaks(a) && NoBreaks(b))
  {
    Join(a, Join(Op16(OP_JUMP_IF_FALSE, 3), Join(Op16(OP_JUMP, 1 + Size(b)), Join(Op(OP_POP), b))))
  }

  /** Two-way choice on the value `c` leaves: both arms first drop that value. */
  function Branch(c: Code, t: Code, f: Code): (r: Code)
    ensures Size(r) == Size(c) + Size(t) + Size(f) + 8
    ensures NoBreaks(r) == (NoBreaks(c) && NoBreaks(t) && NoBreaks(f))
  {
    Join(c, Join(Op16(OP_JUMP_IF_FALSE, 4 + Size(t)), Join(Op(OP_POP), Join(t,
    Join(Op16(OP_JUMP, 1 + Size(f)), Join(Op(OP_POP), f))))))
  }

  predicate BranchFits(t: Code, f: Code) {
    4 + Size(t) <= MAX_OPERAND && 1 + Size(f) <= MAX_OPERAND
  }

  function AssignOut(p: Place, r: Out): Out {
    Out(Join(r.code, Set(p)), p.consts + r.consts, p.ok && r.ok, r.tidy)
  }

  function UpdateOut(p: Place, r: Out, op: Code): Out {
    Out(UpdateCode(p, r.code, op), p.consts + r.consts, p.ok && r.ok, r.tidy)
  }

  function UnaryOut(a: Out, op: Code): Out {
    Out(Join(a.code, op), a.consts, a.ok, a.tidy)
  }

  function BinaryOut(a: Out, b: Out, op: Code): Out {
    Out(Join(a.code, Join(b.code, op)), a.consts + b.consts, a.ok && b.ok, a.tidy && b.tidy)
  }

  function AndOut(a: Out, b: Out): Out {
    Out(AndCode(a.code, b.code), a.consts + b.consts,
        a.ok && b.ok && 1 + Size(b.code) <= MAX_OPERAND, a.tidy && b.tidy)
  }

  function OrOut(a: Out, b: Out): Out {
    Out(OrCode(a.code, b.code), a.consts + b.consts,
        a.ok && b.ok && 1 + Size(b.code) <= MAX_OPERAND, a.tidy && b.tidy)
  }

  function BranchOut(a: Out, b: Out, d: Out): Out {
    Out(Branch(a.code, b.code, d.code), a.consts + b.consts + d.consts,
        a.ok && b.ok && d.ok && BranchFits(b.code, d.code), a.tidy && b.tidy && d.tidy)
  }

  function GenExpr(e: Expr, locals: seq<Local>, k: nat): (o: Out)
    ensures o.tidy && NoBreaks(o.code)
  {
    match e
    case Lit(l) => GenLit(l, k)
    case Var(x) =>
      var p := PlaceOf(locals, x, k);
      Out(Get(p), p.consts, p.ok, true)
    case Assign(x, rhs) =>
      var p := PlaceOf(locals, x, k);
      var r := GenExpr(rhs, locals, k + |p.consts|);
      AssignOut(p, r)
    case Update(x, aop, rhs) =>
      var p := PlaceOf(locals, x, k);
      var r := GenExpr(rhs, locals, k + |p.consts|);
      UpdateOut(p, r, BinCode(PlainOp(aop)))
    case Step(x, up) =>
      var p := PlaceOf(locals, x, k);
      UpdateOut(p, Out(Op(OP_ONE), [], true, true), BinCode(if up then Add else Sub))
    case Unary(op, a) =>
      var r := GenExpr(a, locals, k);
      UnaryOut(r, UnCode(op))
    case Binary(op, l, r) =>
      var a := GenExpr(l, locals, k);
      var b := GenExpr(r, locals, k + |a.consts|);
      BinaryOut(a, b, BinCode(op))
    case And(l, r) =>
      var a := GenExpr(l, locals, k);
      var b := GenExpr(r, locals, k + |a.consts|);
      AndOut(a, b)
    case Or(l, r) =>
      var a := GenExpr(l, locals, k);
      var b := GenExpr(r, locals, k + |a.consts|);
      OrOut(a, b)
    case Cond(c, t, f) =>
      var a := GenExpr(c, locals, k);
      var b := GenExpr(t, locals, k + |a.consts|);
      var d := GenExpr(f, locals, k + |a.consts| + |b.consts|);
      BranchOut(a, b, d)
  }

  function GenLit(l: Literal, k: nat): Out {
    match l
    case LNil => Out(Op(OP_NIL), [], true, true)
    case LTrue => Out(Op(OP_TRUE), [], true, true)
    case LFalse => Out(Op(OP_FALSE), [], true, true)
    case _ => Out(Op16(OP_CONSTANT, k), [Val(LiteralValue(l))], k < MAX_OPERAND, true)
  }

  // What each kind of expression generates, one level at a time.

  lemma {:induction false} GenBinary(op: BinOp, l: Expr, r: Expr, locals: seq<Local>, k: nat)
    ensures var a := GenExpr(l, locals, k);
            GenExpr(Binary(op, l, r), locals, k) == BinaryOut(a, GenExpr(r, locals, k + |a.consts|), BinCode(op))
  {
    hide Join, BinCode, BinaryOut, AndOut, OrOut, BranchOut, AssignOut, UpdateOut, UnaryOut, PlaceOf, GenLit;
  }

  lemma {:induction false} GenAnd(l: Expr, r: Expr, locals: seq<Local>, k: nat)
    ensures var a := GenExpr(l, locals, k); GenExpr(And(l, r), locals, k) == AndOut(a, GenExpr(r, locals, k + |a.consts|))
  {
    hide Join, BinCode, BinaryOut, AndOut, OrOut, BranchOut, AssignOut, UpdateOut, UnaryOut, PlaceOf, GenLit;
  }

  lemma {:induction false} GenOr(l: Expr, r: Expr, locals: seq<Local>, k: nat)
    ensures var a := GenExpr(l, locals, k); GenExpr(Or(l, r), locals, k) == OrOut(a, GenExpr(r, locals, k + |a.consts|))
  {
    hide Join, BinCode, BinaryOut, AndOut, OrOut, BranchOut, AssignOut, UpdateOut, UnaryOut, PlaceOf, GenLit;
  }

  lemma {:induction false} GenCond(c: Expr, t: Expr, f: Expr, locals: seq<Local>, k: nat)
    ensures var a := GenExpr(c, locals, k); var b := GenExpr(t, locals, k + |a.consts|);
            GenExpr(Cond(c, t, f), locals, k) == BranchOut(a, b, GenExpr(f, locals, k + |a.consts| + |b.consts|))
  {
    hide Join, BinCode, BinaryOut, AndOut, OrOut, BranchOut, AssignOut, UpdateOut, UnaryOut, PlaceOf, GenLit;
  }

  lemma {:induction false} GenUnary(op: UnOp, a: Expr, locals: seq<Local>, k: nat)
    ensures GenExpr(Unary(op, a), locals, k) == UnaryOut(GenExpr(a, locals, k), UnCode(op))
  {
    hide Join, UnCode, BinCode, BinaryOut, AndOut, OrOut, BranchOut, AssignOut, UpdateOut, UnaryOut, PlaceOf, GenLit;
  }

  lemma {:induction false} GenOfLiteral(l: Literal, locals: seq<Local>, k: nat)
    ensures GenExpr(Lit(l), locals, k) == GenLit(l, k)
  {}

  lemma {:induction false} GenAssign(x: string, rhs: Expr, locals: seq<Local>, k: nat)
    ensures var p := PlaceOf(locals, x, k);
            GenExpr(Assign(x, rhs), locals, k) == AssignOut(p, GenExpr(rhs, locals, k + |p.consts|))
  {
    hide Join, BinCode, BinaryOut, AndOut, OrOut, BranchOut, AssignOut, UpdateOut, UnaryOut, PlaceOf, GenLit;
  }

  lemma {:induction false} GenUpdate(x: string, aop: AssignOp, rhs: Expr, locals: seq<Local>, k: nat)
    ensures var p := PlaceOf(locals, x, k);
            GenExpr(Update(x, aop, rhs), locals, k) ==
            UpdateOut(p, GenExpr(rhs, locals, k + |p.consts|), BinCode(PlainOp(aop)))
  {
    hide Join, BinCode, BinaryOut, AndOut, OrOut, BranchOut, AssignOut, UpdateOut, UnaryOut, PlaceOf, GenLit;
  }

  lemma {:induction false} GenStep(x: string, up: bool, locals: seq<Local>, k: nat)
    ensures GenExpr(Step(x, up), locals, k) ==
            UpdateOut(PlaceOf(locals, x, k), Out(Op(OP_ONE), [], true, true), BinCode(if up then Add else Sub))
  {
    hide Join, BinCode, BinaryOut, AndOut, OrOut, BranchOut, AssignOut, UpdateOut, UnaryOut, PlaceOf, GenLit, Op;
  }

  // ----- statements -----

  /** Back to byte `start` from the instruction at byte `at`. */
  function Back(at: nat, start: int): Code { Op16(OP_LOOP, at + 3 - start) }

  predicate BackFits(at: nat, start: int) { 0 <= at + 3 - start <= MAX_OPERAND }

  function GenOpt(e: Option<Expr>, locals: seq<Local>, k: nat): (o: Out)
    ensures o.tidy && NoBreaks(o.code)
  {
    if e.None? then Out(Nop, [], true, true) else GenExpr(e.value, locals, k)
  }

  /** `while`: test `a`, body `b`, then back to the test. */
  function WhileOut(a: Out, b: Out, at: nat): Out {
    var atBody := at + Size(a.code) + 4;
    var atBack := atBody + Size(b.code);
    var end := atBack + 4;
    Out(Join(Join(a.code, Join(Op16(OP_JUMP_IF_FALSE, 4 + Size(b.code)), Op(OP_POP))),
        Join(PatchBreaks(b.code, atBody, end), Join(Back(atBack, at), Op(OP_POP)))),
        a.consts + b.consts,
        && a.ok && b.ok && 4 + Size(b.code) <= MAX_OPERAND && BackFits(atBack, at)
        && PatchFits(b.code, atBody, end),
        b.tidy)
  }

  /** `do`: body `b`, test `a`, then back to the body. */
  function DoOut(b: Out, a: Out, at: nat): Out {
    var atBack := at + Size(b.code) + Size(a.code) + 4;
    var end := atBack + 4;
    Out(Join(PatchBreaks(b.code, at, end), Join(Join(a.code, Join(Op16(OP_JUMP_IF_FALSE, 4), Op(OP_POP))),
        Join(Back(atBack, at), Op(OP_POP)))),
        b.consts + a.consts,
        a.ok && b.ok && BackFits(atBack, at) && PatchFits(b.code, at, end),
        b.tidy)
  }

  /** Layout of an `iter` loop at byte `at`: optional test, optional increment, body. The
      increment sits before the body, is jumped over on the way in, and leads to the test. */
  datatype IterShape = IterShape(hasCond: bool, hasIncr: bool, cond: nat, incr: nat, at: nat) {
    function AtStep(): nat { at + if hasCond then cond + 4 else 0 }
    function AtIncr(): nat { AtStep() + if hasIncr then 3 else 0 }
    function AtBody(): nat { AtIncr() + if hasIncr then incr + 4 else 0 }
    function Start(): nat { if hasIncr then AtIncr() else at }
  }

  // The parts of an `iter` loop around its body; `atBack` is where the body ends.

  function IterHead(sh: IterShape, c: Code, atBack: int): Code {
    if sh.hasCond then Join(c, Join(Op16(OP_JUMP_IF_FALSE, atBack - sh.at - sh.cond), Op(OP_POP))) else Nop
  }

  function IterStep(sh: IterShape, i: Code): Code {
    if sh.hasIncr then
      Join(Op16(OP_JUMP, sh.incr + 4), Join(i, Join(Op(OP_POP), Back(sh.AtIncr() + sh.incr + 1, sh.at))))
    else Nop
  }

  function IterTail(sh: IterShape, atBack: nat): Code {
    Join(Back(atBack, sh.Start()), if sh.hasCond then Op(OP_POP) else Nop)
  }

  function IterOut(sh: IterShape, c: Out, i: Out, b: Out): Out {
    var atBack := sh.AtBody() + Size(b.code);
    var end := atBack + 3 + if sh.hasCond then 1 else 0;
    Out(Join(IterHead(sh, c.code, atBack), Join(IterStep(sh, i.code),
        Join(PatchBreaks(b.code, sh.AtBody(), end), IterTail(sh, atBack)))),
        c.consts + i.consts + b.consts,
        && c.ok && i.ok && b.ok && (sh.hasCond ==> atBack - sh.at - sh.cond <= MAX_OPERAND)
        && (sh.hasIncr ==> sh.incr + 4 <= MAX_OPERAND && BackFits(sh.AtIncr() + sh.incr + 1, sh.at))
        && BackFits(atBack, sh.Start()) && PatchFits(b.code, sh.AtBody(), end),
        b.tidy)
  }

  /** `using`: the jump table is the last constant added. */
  function UsingOut(a: Out, c: CasesOut, k: nat): Out {
    var sw := k + |a.consts| + |c.consts|;
    Out(Join(a.code, Join(Op16(OP_SWITCH, sw), c.code)),
        a.consts + c.consts + [Switch(c.table, c.dfltJump, Size(c.code))],
        a.ok && c.ok && sw < MAX_OPERAND, c.tidy)
  }

  function SeqOut(a: Out, b: Out): Out {
    Out(Join(a.code, b.code), a.consts + b.consts, a.ok && b.ok, a.tidy && b.tidy)
  }

  function ThenOut(a: Out, b: DeclsOut): DeclsOut {
    DeclsOut(Join(a.code, b.code), a.consts + b.consts, a.ok && b.ok, a.tidy && b.tidy, b.locals)
  }

  /** The initializer of a new local, then what follows; `fits` when the local may be declared. */
  function DeclareOut(a: Out, b: DeclsOut, fits: bool): DeclsOut {
    DeclsOut(Join(a.code, b.code), a.consts + b.consts, a.ok && b.ok && fits, b.tidy, b.locals)
  }

  function InitOut(x: string, init: Option<Expr>, locals: seq<Local>, k: nat): Out {
    if init.None? then Out(Op(OP_NIL), [], true, true) else GenExpr(init.value, locals + [Local(x, -1)], k)
  }

  /** A new local is declared once in its scope, and there is room for it. */
  predicate MayDeclare(locals: seq<Local>, depth: int, x: string) {
    !Clashes(locals, depth, x) && |locals| < MAX_LOCALS
  }

  function GenStmt(s: Stmt, locals: seq<Local>, depth: nat, at: nat, k: nat, loop: Loop): Out
    decreases s
  {
    match s
    case Skip => Out(Nop, [], true, true)
    case Seq(s1, s2) =>
      var a := GenStmt(s1, locals, depth, at, k, loop);
      var b := GenStmt(s2, locals, depth, at + Size(a.code), k + |a.consts|, loop);
      SeqOut(a, b)
    case Eval(e) =>
      var a := GenExpr(e, locals, k);
      Out(Join(a.code, Op(OP_POP)), a.consts, a.ok, true)
    case Echo(e) =>
      var a := GenExpr(e, locals, k);
      Out(Join(a.code, Op(OP_ECHO)), a.consts, a.ok, true)
    case Block(ds) =>
      var a := GenDecls(ds, locals, depth + 1, at, k, loop);
      Out(Join(a.code, Pops(Deeper(a.locals, depth))), a.consts, a.ok, a.tidy)
    case If(e, t, f) =>
      var a := GenExpr(e, locals, k);
      var b := GenStmt(t, locals, depth, at + Size(a.code) + 4, k + |a.consts|, loop);
      var d := GenStmt(f, locals, depth, at + Size(a.code) + 4 + Size(b.code) + 4,
                       k + |a.consts| + |b.consts|, loop);
      BranchOut(a, b, d)
    case While(e, body) =>
      var a := GenExpr(e, locals, k);
      var b := GenStmt(body, locals, depth, at + Size(a.code) + 4, k + |a.consts|,
                       Loop(at, loop.depth, |locals|));
      WhileOut(a, b, at)
    case DoWhile(body, e) =>
      var b := GenStmt(body, locals, depth, at, k, Loop(at, loop.depth, |locals|));
      var a := GenExpr(e, locals, k + |b.consts|);
      DoOut(b, a, at)
    case IterLoop(cond, incr, body) =>
      var c := GenOpt(cond, locals, k);
      var i := GenOpt(incr, locals, k + |c.consts|);
      var sh := IterShape(cond.Some?, incr.Some?, Size(c.code), Size(i.code), at);
      var b := GenStmt(body, locals, depth, sh.AtBody(), k + |c.consts| + |i.consts|,
                       Loop(sh.Start(), depth, |locals|));
      IterOut(sh, c, i, b)
    case Using(e, cases) =>
      var a := GenExpr(e, locals, k);
      var base := at + Size(a.code) + 3;
      UsingOut(a, GenCases(cases, locals, depth, base, base, k + |a.consts|, loop), k)
    case Continue =>
      var n := Deeper(locals, loop.depth);
      Out(Join(Pops(n), Back(at + n, loop.start)), [],
          loop.start != -1 && BackFits(at + n, loop.start), |locals| == loop.locals + n)
    case Break =>
      Out(One(OP_BREAK_PL, [255, 255]), [], loop.start != -1, |locals| == loop.locals)
    case Return(None) => Out(Join(Op(OP_EMPTY), Op(OP_RETURN)), [], true, true)
    case Return(Some(e)) =>
      var a := GenExpr(e, locals, k);
      Out(Join(a.code, Op(OP_RETURN)), a.consts, a.ok, true)
  }

  function GenDecls(ds: Decls, locals: seq<Local>, depth: nat, at: nat, k: nat, loop: Loop): DeclsOut
    decreases ds
  {
    match ds
    case Done => DeclsOut(Nop, [], true, true, locals)
    case Declare(x, init, rest) =>
      var a := InitOut(x, init, locals, k);
      var b := GenDecls(rest, locals + [Local(x, depth)], depth, at + Size(a.code), k + |a.consts|, loop);
      DeclareOut(a, b, MayDeclare(locals, depth, x))
    case Then(s, rest) =>
      var a := GenStmt(s, locals, depth, at, k, loop);
      var b := GenDecls(rest, locals, depth, at + Size(a.code), k + |a.consts|, loop);
      ThenOut(a, b)
  }

  /** Cases of a `using` statement whose jump table counts from byte `base`. */
  function GenCases(cases: Cases, locals: seq<Local>, depth: nat, at: nat, base: nat, k: nat,
                    loop: Loop): CasesOut
    requires base <= at
    decreases cases
  {
    match cases
    case NoCase => CasesOut(Nop, [], true, true, map[], -1)
    case Default(body) =>
      var d := GenStmt(body, locals, depth, at, k, loop);
      CasesOut(d.code, d.consts, d.ok, d.tidy, map[], at - base)
    case When(labels, body, rest) =>
      var b := GenStmt(body, locals, depth, at, k, loop);
      var r := GenCases(rest, locals, depth, at + Size(b.code) + 3, base, k + |b.consts|, loop);
      CasesOut(Join(b.code, Join(Op16(OP_JUMP, Size(r.code)), r.code)), b.consts + r.consts,
               b.ok && r.ok && LNil !in labels && Size(r.code) <= MAX_OPERAND, b.tidy && r.tidy,
               LabelTable(labels, at - base) + r.table, r.dfltJump)
  }

  function LabelTable(labels: seq<Literal>, offset: nat): map<Value, nat> {
    map l | l in labels :: LiteralValue(l) := offset
  }

  // What each kind of statement generates, one level at a time.

  lemma {:induction false} GenSeq(s1: Stmt, s2: Stmt, live: seq<Local>, depth: nat, at: nat, k: nat, loop: Loop)
    ensures var a := GenStmt(s1, live, depth, at, k, loop);
            GenStmt(Seq(s1, s2), live, depth, at, k, loop) == SeqOut(a, GenStmt(s2, live, depth, at + Size(a.code), k + |a.consts|, loop))
  {
    hide GenExpr, GenOpt, GenDecls, GenCases, Size, SeqOut, UnaryOut, BranchOut, WhileOut, DoOut, IterOut, UsingOut, Pops, Deeper, Op, Join, Back, BackFits;
  }

  lemma {:induction false} GenEval(e: Expr, live: seq<Local>, depth: nat, at: nat, k: nat, loop: Loop)
    ensures GenStmt(Eval(e), live, depth, at, k, loop) == UnaryOut(GenExpr(e, live, k), Op(OP_POP))
    ensures GenStmt(Echo(e), live, depth, at, k, loop) == UnaryOut(GenExpr(e, live, k), Op(OP_ECHO))
  {
    hide GenExpr, GenOpt, GenDecls, GenCases, Size, SeqOut, BranchOut, WhileOut, DoOut, IterOut, UsingOut, Pops, Deeper, Back, BackFits;
  }

  lemma {:induction false} GenIf(e: Expr, t: Stmt, f: Stmt, live: seq<Local>, depth: nat, at: nat, k: nat, loop: Loop)
    ensures var a := GenExpr(e, live, k);
            var b := GenStmt(t, live, depth, at + Size(a.code) + 4, k + |a.consts|, loop);
            GenStmt(If(e, t, f), live, depth, at, k, loop) ==
            BranchOut(a, b, GenStmt(f, live, depth, at + Size(a.code) + 4 + Size(b.code) + 4, k + |a.consts| + |b.consts|, loop))
  {
    hide GenExpr, GenOpt, GenDecls, GenCases, Size, SeqOut, UnaryOut, BranchOut, WhileOut, DoOut, IterOut, UsingOut, Pops, Deeper, Op, Join, Back, BackFits;
  }

  lemma {:induction false} GenDo(body: Stmt, e: Expr, live: seq<Local>, depth: nat, at: nat, k: nat, loop: Loop)
    ensures var b := GenStmt(body, live, depth, at, k, Loop(at, loop.depth, |live|));
            GenStmt(DoWhile(body, e), live, depth, at, k, loop) == DoOut(b, GenExpr(e, live, k + |b.consts|), at)
  {
    hide GenExpr, GenOpt, GenDecls, GenCases, Size, SeqOut, UnaryOut, BranchOut, WhileOut, DoOut, IterOut, UsingOut, Pops, Deeper, Op, Join, Back, BackFits;
  }

  lemma {:induction false} GenIter(cond: Option<Expr>, incr: Option<Expr>, body: Stmt, live: seq<Local>, depth: nat, at: nat, k: nat, loop: Loop)
    ensures var c := GenOpt(cond, live, k);
            var i := GenOpt(incr, live, k + |c.consts|);
            var sh := IterShape(cond.Some?, incr.Some?, Size(c.code), Size(i.code), at);
            GenStmt(IterLoop(cond, incr, body), live, depth, at, k, loop) ==
            IterOut(sh, c, i, GenStmt(body, live, depth, sh.AtBody(), k + |c.consts| + |i.consts|, Loop(sh.Start(), depth, |live|)))
  {
    hide GenExpr, GenOpt, GenDecls, GenCases, Size, SeqOut, UnaryOut, BranchOut, WhileOut, DoOut, IterOut, UsingOut, Pops, Deeper, Op, Join, Back, BackFits, IterShape.AtStep, IterShape.AtIncr, IterShape.AtBody, IterShape.Start;
  }

  lemma {:induction false} GenUsing(e: Expr, cases: Cases, live: seq<Local>, depth: nat, at: nat, k: nat, loop: Loop)
    ensures var a := GenExpr(e, live, k); var base := at + Size(a.code) + 3;
            GenStmt(Using(e, cases), live, depth, at, k, loop) ==
            UsingOut(a, GenCases(cases, live, depth, base, base, k + |a.consts|, loop), k)
  {
    hide GenExpr, GenOpt, GenDecls, GenCases, Size, SeqOut, UnaryOut, BranchOut, WhileOut, DoOut, IterOut, UsingOut, Pops, Deeper, Op, Join, Back, BackFits;
  }

  lemma {:induction false} GenContinue(live: seq<Local>, depth: nat, at: nat, k: nat, loop: Loop)
    ensures var n := Deeper(live, loop.depth);
            GenStmt(Continue, live, depth, at, k, loop) == Out(Join(Pops(n), Back(at + n, loop.start)), [],
                loop.start != -1 && BackFits(at + n, loop.start), |live| == loop.locals + n)
  {
    hide GenExpr, GenOpt, GenDecls, GenCases, Size, SeqOut, UnaryOut, BranchOut, WhileOut, DoOut, IterOut, UsingOut, Pops, Deeper, Op, Join, Back, BackFits;
  }

  lemma {:induction false} GenBreak(live: seq<Local>, depth: nat, at: nat, k: nat, loop: Loop)
    ensures GenStmt(Break, live, depth, at, k, loop) ==
            Out(One(OP_BREAK_PL, [255, 255]), [], loop.start != -1, |live| == loop.locals)
  {
    hide GenExpr, GenOpt, GenDecls, GenCases, Size, SeqOut, UnaryOut, BranchOut, WhileOut, DoOut, IterOut, UsingOut, Pops, Deeper, Op, Join, Back, BackFits;
  }

  lemma {:induction false} GenReturn(e: Expr, live: seq<Local>, depth: nat, at: nat, k: nat, loop: Loop)
    ensures var a := GenExpr(e, live, k);
            GenStmt(Return(Some(e)), live, depth, at, k, loop) == Out(Join(a.code, Op(OP_RETURN)), a.consts, a.ok, true)
  {
    hide GenExpr, GenOpt, GenDecls, GenCases, Size, SeqOut, BranchOut, WhileOut, DoOut, IterOut, UsingOut, Pops, Deeper, Back, BackFits;
  }

  lemma {:induction false} GenWhile(e: Expr, body: Stmt, live: seq<Local>, depth: nat, at: nat, k: nat, loop: Loop)
    ensures var a := GenExpr(e, live, k);
            GenStmt(While(e, body), live, depth, at, k, loop) ==
            WhileOut(a, GenStmt(body, live, depth, at + Size(a.code) + 4, k + |a.consts|, Loop(at, loop.depth, |live|)), at)
  {
    hide GenExpr, GenOpt, GenDecls, GenCases, Size, SeqOut, UnaryOut, BranchOut, WhileOut, DoOut, IterOut, UsingOut, Pops, Deeper, Op, Join, Back, BackFits;
  }

  lemma {:induction false} GenBlock(ds: Decls, live: seq<Local>, depth: nat, at: nat, k: nat, loop: Loop)
    ensures var a := GenDecls(ds, live, depth + 1, at, k, loop);
            GenStmt(Block(ds), live, depth, at, k, loop) ==
            Out(Join(a.code, Pops(Deeper(a.locals, depth))), a.consts, a.ok, a.tidy)
  {
    hide GenExpr, GenOpt, GenDecls, GenCases, Size, SeqOut, UnaryOut, BranchOut, WhileOut, DoOut, IterOut, UsingOut, Pops, Deeper, Op, Join, Back, BackFits;
  }

  lemma {:induction false} GenThen(s: Stmt, rest: Decls, live: seq<Local>, depth: nat, at: nat, k: nat, loop: Loop)
    ensures var a := GenStmt(s, live, depth, at, k, loop);
            GenDecls(Then(s, rest), live, depth, at, k, loop) ==
            ThenOut(a, GenDecls(rest, live, depth, at + Size(a.code), k + |a.consts|, loop))
  {
    hide GenExpr, GenStmt, Size, ThenOut, DeclareOut, InitOut, MayDeclare;
  }

  lemma {:induction false} GenDeclared(x: string, init: Option<Expr>, rest: Decls, live: seq<Local>, depth: nat, at: nat, k: nat, loop: Loop)
    ensures var a := InitOut(x, init, live, k);
            GenDecls(Declare(x, init, rest), live, depth, at, k, loop) ==
            DeclareOut(a, GenDecls(rest, live + [Local(x, depth)], depth, at + Size(a.code), k + |a.consts|, loop),
                       MayDeclare(live, depth, x))
  {
    hide GenExpr, GenStmt, Size, ThenOut, DeclareOut, InitOut, MayDeclare;
  }

  lemma {:induction false} GenDone(live: seq<Local>, depth: nat, at: nat, k: nat, loop: Loop)
    ensures GenDecls(Done, live, depth, at, k, loop) == DeclsOut(Nop, [], true, true, live)
  {}

  // ----- functions -----

  function ParamLocals(params: seq<string>): (ls: seq<Local>)
    ensures |ls| == 1 + |params|
  {
    [Local("", 0)] + seq(|params|, i requires 0 <= i < |params| => Local(params[i], 1))
  }

  predicate DistinctNames(names: seq<string>) {
    forall i, j :: 0 <= i < j < |names| ==> names[i] != names[j]
  }

  function GenFunction(f: Function): DeclsOut {
    var locals := ParamLocals(f.params);
    var b := GenDecls(f.body, locals, 1, 0, 0, NO_LOOP);
    DeclsOut(Join(b.code, Join(Op(OP_EMPTY), Op(OP_RETURN))), b.consts,
             b.ok && DistinctNames(f.params) && |locals| <= MAX_LOCALS, b.tidy, b.locals)
  }
}
