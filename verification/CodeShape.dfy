/** Everything the compiler emits decodes back into the instructions it meant. */
module CodeShape {
  import opened Basics
  import opened Values
  import opened Bytecode
  import opened Syntax
  import opened Codegen
  import opened Decoding

  lemma {:induction false} BasicJoin(a: Code, b: Code)
    ensures Basic(Join(a, b)) == (Basic(a) && Basic(b))
  {}

  lemma {:induction false} BasicJoin3(a: Code, b: Code, c: Code)
    ensures Basic(Join(a, Join(b, c))) == (Basic(a) && Basic(b) && Basic(c))
  {
    hide Basic, Join;
    BasicJoin(a, Join(b, c));
    BasicJoin(b, c);
  }

  lemma {:induction false} BasicJoin4(a: Code, b: Code, c: Code, d: Code)
    ensures Basic(Join(a, Join(b, Join(c, d)))) == (Basic(a) && Basic(b) && Basic(c) && Basic(d))
  {
    hide Basic, Join;
    BasicJoin3(b, c, d);
    BasicJoin(a, Join(b, Join(c, d)));
  }

  lemma {:induction false} BasicOps(n: int)
    ensures forall op: byte :: op != OP_CLOSURE && FixedArgs(op) == 0 ==> Basic(Op(op))
    ensures forall op: byte :: FixedArgs(op) == 2 ==> Basic(Op16(op, n))
  {}

  lemma {:induction false} BasicPatch(c: Code, at: nat, end: int)
    requires Basic(c)
    ensures Basic(PatchBreaks(c, at, end))
    decreases c
  {
    if c.Cat? {
      BasicPatch(c.fst, at, end);
      BasicPatch(c.snd, at + Size(c.fst), end);
    }
  }

  lemma {:induction false} BasicPops(n: nat)
    ensures Basic(Pops(n))
  {
    if n > 0 { BasicPops(n - 1); }
  }

  lemma {:induction false} BasicBranch(a: Code, t: Code, f: Code)
    requires Basic(a) && Basic(t) && Basic(f)
    ensures Basic(Branch(a, t, f))
  {
    hide Basic, Join, Op, Op16;
    var test, skip := Op16(OP_JUMP_IF_FALSE, 4 + Size(t)), Op16(OP_JUMP, 1 + Size(f));
    BasicOps(4 + Size(t));
    BasicOps(1 + Size(f));
    BasicJoin4(t, skip, Op(OP_POP), f);
    BasicJoin4(a, test, Op(OP_POP), Join(t, Join(skip, Join(Op(OP_POP), f))));
  }

  lemma {:induction false} BasicPlace(p: Place)
    ensures Basic(Get(p)) && Basic(Set(p))
  {}

  lemma {:induction false} ExprBasic(e: Expr, locals: seq<Local>, k: nat)
    ensures var o := GenExpr(e, locals, k); Basic(o.code)
    decreases e, 1
  {
    hide Basic, Join, Op, Op16, Get, Set, Branch, AndCode, OrCode, Size, GenExpr, PlaceOf, BinCode, UnCode;
    match e
    case Lit(l) => LitBasic(l, locals, k);
    case Var(x) => VarBasic(x, locals, k);
    case Assign(_, _) => StoreBasic(e, locals, k);
    case Update(_, _, _) => StoreBasic(e, locals, k);
    case Step(_, _) => StoreBasic(e, locals, k);
    case Unary(op, a) =>
      GenUnary(op, a, locals, k);
      ExprBasic(a, locals, k);
      BasicUn(op);
      BasicJoin(GenExpr(a, locals, k).code, UnCode(op));
    case Binary(op, l, r) =>
      GenBinary(op, l, r, locals, k);
      var a := GenExpr(l, locals, k);
      ExprBasic(l, locals, k);
      ExprBasic(r, locals, k + |a.consts|);
      BasicBin(op);
      BasicJoin3(a.code, GenExpr(r, locals, k + |a.consts|).code, BinCode(op));
    case And(l, r) =>
      GenAnd(l, r, locals, k);
      var a := GenExpr(l, locals, k);
      ExprBasic(l, locals, k);
      ExprBasic(r, locals, k + |a.consts|);
      BasicAnd(a.code, GenExpr(r, locals, k + |a.consts|).code);
    case Or(l, r) =>
      GenOr(l, r, locals, k);
      var a := GenExpr(l, locals, k);
      ExprBasic(l, locals, k);
      ExprBasic(r, locals, k + |a.consts|);
      BasicOr(a.code, GenExpr(r, locals, k + |a.consts|).code);
    case Cond(c, t, f) =>
      GenCond(c, t, f, locals, k);
      var a := GenExpr(c, locals, k);
      var b := GenExpr(t, locals, k + |a.consts|);
      ExprBasic(c, locals, k);
      ExprBasic(t, locals, k + |a.consts|);
      ExprBasic(f, locals, k + |a.consts| + |b.consts|);
      BasicBranch(a.code, b.code, GenExpr(f, locals, k + |a.consts| + |b.consts|).code);
  }

  lemma {:induction false} StoreBasic(e: Expr, locals: seq<Local>, k: nat)
    requires e.Assign? || e.Update? || e.Step?
    ensures Basic(GenExpr(e, locals, k).code)
    decreases e, 0
  {
    hide Basic, Join, Op, Get, Set, UpdateCode, GenExpr, PlaceOf, BinCode;
    match e
    case Assign(x, rhs) =>
      GenAssign(x, rhs, locals, k);
      var p := PlaceOf(locals, x, k);
      ExprBasic(rhs, locals, k + |p.consts|);
      BasicPlace(p);
      BasicJoin(GenExpr(rhs, locals, k + |p.consts|).code, Set(p));
    case Update(x, aop, rhs) =>
      GenUpdate(x, aop, rhs, locals, k);
      var p := PlaceOf(locals, x, k);
      ExprBasic(rhs, locals, k + |p.consts|);
      BasicUpdate(p, GenExpr(rhs, locals, k + |p.consts|).code, PlainOp(aop));
    case Step(x, up) =>
      GenStep(x, up, locals, k);
      BasicOps(0);
      BasicUpdate(PlaceOf(locals, x, k), Op(OP_ONE), if up then Add else Sub);
  }

  lemma {:induction false} LitBasic(l: Literal, locals: seq<Local>, k: nat)
    ensures Basic(GenExpr(Lit(l), locals, k).code)
  {}

  lemma {:induction false} VarBasic(x: string, locals: seq<Local>, k: nat)
    ensures Basic(GenExpr(Var(x), locals, k).code)
  {
    hide PlaceOf;
    BasicPlace(PlaceOf(locals, x, k));
  }

  lemma {:induction false} BasicAnd(a: Code, b: Code)
    requires Basic(a) && Basic(b)
    ensures Basic(AndCode(a, b))
  {
    hide Basic, Join, Op, Op16;
    BasicOps(1 + Size(b));
    BasicJoin4(a, Op16(OP_JUMP_IF_FALSE, 1 + Size(b)), Op(OP_POP), b);
  }

  lemma {:induction false} BasicOr(a: Code, b: Code)
    requires Basic(a) && Basic(b)
    ensures Basic(OrCode(a, b))
  {
    hide Basic, Join, Op, Op16;
    var test, skip := Op16(OP_JUMP_IF_FALSE, 3), Op16(OP_JUMP, 1 + Size(b));
    BasicOps(1 + Size(b));
    BasicOps(3);
    BasicJoin3(skip, Op(OP_POP), b);
    BasicJoin3(a, test, Join(skip, Join(Op(OP_POP), b)));
  }

  lemma {:induction false} BasicUpdate(p: Place, r: Code, op: BinOp)
    requires Basic(r)
    ensures Basic(UpdateCode(p, r, BinCode(op)))
  {
    hide Basic, Join, Get, Set, BinCode;
    BasicPlace(p);
    BasicBin(op);
    BasicJoin4(Get(p), r, BinCode(op), Set(p));
  }

  lemma {:induction false} BasicBin(op: BinOp)
    ensures Basic(BinCode(op))
  {
    hide Size, NoBreaks;
  }

  lemma {:induction false} BasicUn(op: UnOp)
    ensures Basic(UnCode(op))
  {}

  // ----- statements -----

  lemma {:induction false} WhileQuiet(a: Out, b: Out, at: nat)
    requires NoBreaks(a.code)
    ensures NoBreaks(WhileOut(a, b, at).code) && WhileOut(a, b, at).tidy == b.tidy
    ensures Size(WhileOut(a, b, at).code) == Size(a.code) + Size(b.code) + 8
  {
    hide PatchBreaks, Op, Op16;
  }

  lemma {:induction false} DoQuiet(b: Out, a: Out, at: nat)
    requires NoBreaks(a.code)
    ensures NoBreaks(DoOut(b, a, at).code) && DoOut(b, a, at).tidy == b.tidy
    ensures Size(DoOut(b, a, at).code) == Size(a.code) + Size(b.code) + 8
  {
    hide PatchBreaks, Op, Op16;
  }

  lemma {:induction false} IterQuiet(sh: IterShape, c: Out, i: Out, b: Out)
    requires NoBreaks(c.code) && NoBreaks(i.code)
    ensures NoBreaks(IterOut(sh, c, i, b).code) && IterOut(sh, c, i, b).tidy == b.tidy
  {
    hide PatchBreaks, Op, Op16;
  }

  lemma {:induction false} BasicBack(at: nat, start: int)
    ensures Basic(Back(at, start)) && NoBreaks(Back(at, start))
  {
    BasicOps(at + 3 - start);
  }

  lemma {:induction false} WhileBasic(a: Out, b: Out, at: nat)
    requires Basic(a.code) && Basic(b.code)
    ensures Basic(WhileOut(a, b, at).code)
  {
    hide Basic, Join, Op, Op16, PatchBreaks, PatchFits, Back;
    var atBody := at + Size(a.code) + 4;
    var atBack := atBody + Size(b.code);
    var test := Op16(OP_JUMP_IF_FALSE, 4 + Size(b.code));
    var body := PatchBreaks(b.code, atBody, atBack + 4);
    BasicOps(4 + Size(b.code));
    BasicPatch(b.code, atBody, atBack + 4);
    BasicBack(atBack, at);
    BasicJoin3(a.code, test, Op(OP_POP));
    BasicJoin3(body, Back(atBack, at), Op(OP_POP));
    BasicJoin(Join(a.code, Join(test, Op(OP_POP))), Join(body, Join(Back(atBack, at), Op(OP_POP))));
  }

  lemma {:induction false} DoBasic(b: Out, a: Out, at: nat)
    requires Basic(a.code) && Basic(b.code)
    ensures Basic(DoOut(b, a, at).code)
  {
    hide Basic, Join, Op, Op16, PatchBreaks, PatchFits, Back;
    var atBack := at + Size(b.code) + Size(a.code) + 4;
    var test := Op16(OP_JUMP_IF_FALSE, 4);
    var head := Join(a.code, Join(test, Op(OP_POP)));
    BasicOps(4);
    BasicPatch(b.code, at, atBack + 4);
    BasicBack(atBack, at);
    BasicJoin3(a.code, test, Op(OP_POP));
    BasicJoin(Back(atBack, at), Op(OP_POP));
    BasicJoin3(PatchBreaks(b.code, at, atBack + 4), head, Join(Back(atBack, at), Op(OP_POP)));
  }

  lemma {:induction false} IterBasic(sh: IterShape, c: Out, i: Out, b: Out)
    requires Basic(c.code) && Basic(i.code) && Basic(b.code)
    ensures Basic(IterOut(sh, c, i, b).code)
  {
    hide Basic, Join, Op, Op16, PatchBreaks, PatchFits, Back;
    var atBack := sh.AtBody() + Size(b.code);
    var exit := atBack - sh.at - sh.cond;
    var end := atBack + 3 + if sh.hasCond then 1 else 0;
    var back := sh.AtIncr() + sh.incr + 1;
    var test, skip := Op16(OP_JUMP_IF_FALSE, exit), Op16(OP_JUMP, sh.incr + 4);
    var head := if sh.hasCond then Join(c.code, Join(test, Op(OP_POP))) else Nop;
    var step := if sh.hasIncr then Join(skip, Join(i.code, Join(Op(OP_POP), Back(back, sh.at)))) else Nop;
    var last := if sh.hasCond then Op(OP_POP) else Nop;
    BasicNop();
    BasicOps(exit);
    BasicOps(sh.incr + 4);
    BasicPatch(b.code, sh.AtBody(), end);
    BasicBack(back, sh.at);
    BasicBack(atBack, sh.Start());
    BasicJoin3(c.code, test, Op(OP_POP));
    BasicJoin4(skip, i.code, Op(OP_POP), Back(back, sh.at));
    BasicJoin(Back(atBack, sh.Start()), last);
    BasicJoin4(head, step, PatchBreaks(b.code, sh.AtBody(), end), Join(Back(atBack, sh.Start()), last));
  }

  lemma {:induction false} BasicNop()
    ensures Basic(Nop)
  {}

  /** Emitted statements decode instruction by instruction; and accepted code outside any loop
      holds no break placeholder, because each belongs to an enclosing loop that patched it. */
  ghost predicate Shaped(c: Code, ok: bool, loop: Loop) {
    Basic(c) && (loop.start == -1 && ok ==> NoBreaks(c))
  }

  lemma {:induction false} StmtShape(s: Stmt, live: seq<Local>, depth: nat, at: nat, k: nat, loop: Loop)
    ensures var o := GenStmt(s, live, depth, at, k, loop); Shaped(o.code, o.ok, loop)
    decreases s, 1
  {
    hide Basic, GenExpr, PatchBreaks, PatchFits, Size, Branch, Pops, Deeper, WhileOut, DoOut, IterOut, UsingOut, GenOpt, Op, Op16, Join, Back, LabelTable, Clashes;
    match s
    case Skip => BasicNop();
    case Seq(_, _) => SeqShape(s, live, depth, at, k, loop);
    case Eval(e) => TailShape(e, live, k, OP_POP);
    case Echo(e) => TailShape(e, live, k, OP_ECHO);
    case Block(ds) =>
      var a := GenDecls(ds, live, depth + 1, at, k, loop);
      DeclsShape(ds, live, depth + 1, at, k, loop);
      BasicPops(Deeper(a.locals, depth));
      BasicJoin(a.code, Pops(Deeper(a.locals, depth)));
    case If(_, _, _) => IfShape(s, live, depth, at, k, loop);
    case While(_, _) => LoopShape(s, live, depth, at, k, loop);
    case DoWhile(_, _) => LoopShape(s, live, depth, at, k, loop);
    case IterLoop(_, _, _) => LoopShape(s, live, depth, at, k, loop);
    case Using(e, cases) => UsingShape(s, live, depth, at, k, loop);
    case Continue =>
      var n := Deeper(live, loop.depth);
      BasicPops(n);
      BasicBack(at + n, loop.start);
      BasicJoin(Pops(n), Back(at + n, loop.start));
    case Break => BreakBasic();
    case Return(r) =>
      BasicOps(0);
      BasicJoin(Op(OP_EMPTY), Op(OP_RETURN));
      if r.Some? { TailShape(r.value, live, k, OP_RETURN); }
  }

  lemma {:induction false} BreakBasic()
    ensures Basic(One(OP_BREAK_PL, [255, 255]))
  {}

  lemma {:induction false} TailShape(e: Expr, live: seq<Local>, k: nat, op: byte)
    requires op != OP_CLOSURE && FixedArgs(op) == 0
    ensures var c := Join(GenExpr(e, live, k).code, Op(op)); Basic(c) && NoBreaks(c)
  {
    hide Basic, GenExpr, Op, Join;
    ExprBasic(e, live, k);
    BasicOps(0);
    BasicJoin(GenExpr(e, live, k).code, Op(op));
  }

  lemma {:induction false} SeqShape(s: Stmt, live: seq<Local>, depth: nat, at: nat, k: nat, loop: Loop)
    requires s.Seq?
    ensures var o := GenStmt(s, live, depth, at, k, loop); Shaped(o.code, o.ok, loop)
    decreases s, 0
  {
    hide Basic, GenExpr, PatchBreaks, PatchFits, Size, Branch, Pops, Deeper, WhileOut, DoOut, IterOut, UsingOut, GenOpt, Op, Op16, Join, Back, LabelTable, Clashes;
    var a := GenStmt(s.first, live, depth, at, k, loop);
    StmtShape(s.first, live, depth, at, k, loop);
    StmtShape(s.second, live, depth, at + Size(a.code), k + |a.consts|, loop);
    BasicJoin(a.code, GenStmt(s.second, live, depth, at + Size(a.code), k + |a.consts|, loop).code);
  }

  lemma {:induction false} IfShape(s: Stmt, live: seq<Local>, depth: nat, at: nat, k: nat, loop: Loop)
    requires s.If?
    ensures var o := GenStmt(s, live, depth, at, k, loop); Shaped(o.code, o.ok, loop)
    decreases s, 0
  {
    hide Basic, GenExpr, PatchBreaks, PatchFits, Size, Branch, Pops, Deeper, WhileOut, DoOut, IterOut, UsingOut, GenOpt, Op, Op16, Join, Back, LabelTable, Clashes;
    var a := GenExpr(s.e, live, k);
    var b := GenStmt(s.thn, live, depth, at + Size(a.code) + 4, k + |a.consts|, loop);
    var atF, kF := at + Size(a.code) + 4 + Size(b.code) + 4, k + |a.consts| + |b.consts|;
    ExprBasic(s.e, live, k);
    StmtShape(s.thn, live, depth, at + Size(a.code) + 4, k + |a.consts|, loop);
    StmtShape(s.els, live, depth, atF, kF, loop);
    BasicBranch(a.code, b.code, GenStmt(s.els, live, depth, atF, kF, loop).code);
  }

  lemma {:induction false} OptBasic(e: Option<Expr>, live: seq<Local>, k: nat)
    ensures var o := GenOpt(e, live, k); Basic(o.code)
  {
    hide GenExpr, Basic;
    BasicNop();
    if e.Some? { ExprBasic(e.value, live, k); }
  }

  lemma {:induction false} LoopShape(s: Stmt, live: seq<Local>, depth: nat, at: nat, k: nat, loop: Loop)
    requires s.While? || s.DoWhile? || s.IterLoop?
    ensures var o := GenStmt(s, live, depth, at, k, loop); Shaped(o.code, o.ok, loop)
    decreases s, 0
  {
    hide Basic, GenExpr, PatchBreaks, PatchFits, Size, Branch, Pops, Deeper, WhileOut, DoOut, IterOut, UsingOut, GenOpt, Op, Op16, Join, Back, LabelTable, Clashes;
    match s
    case While(e, body) =>
      var a := GenExpr(e, live, k);
      var inner := Loop(at, loop.depth, |live|);
      ExprBasic(e, live, k);
      StmtShape(body, live, depth, at + Size(a.code) + 4, k + |a.consts|, inner);
      var b := GenStmt(body, live, depth, at + Size(a.code) + 4, k + |a.consts|, inner);
      WhileQuiet(a, b, at);
      WhileBasic(a, b, at);
    case DoWhile(body, e) =>
      var inner := Loop(at, loop.depth, |live|);
      var b := GenStmt(body, live, depth, at, k, inner);
      StmtShape(body, live, depth, at, k, inner);
      ExprBasic(e, live, k + |b.consts|);
      DoQuiet(b, GenExpr(e, live, k + |b.consts|), at);
      DoBasic(b, GenExpr(e, live, k + |b.consts|), at);
    case IterLoop(c, i, body) =>
      var a := GenOpt(c, live, k);
      var b := GenOpt(i, live, k + |a.consts|);
      var sh := IterShape(c.Some?, i.Some?, Size(a.code), Size(b.code), at);
      var inner := Loop(sh.Start(), depth, |live|);
      OptBasic(c, live, k);
      OptBasic(i, live, k + |a.consts|);
      StmtShape(body, live, depth, sh.AtBody(), k + |a.consts| + |b.consts|, inner);
      var d := GenStmt(body, live, depth, sh.AtBody(), k + |a.consts| + |b.consts|, inner);
      IterQuiet(sh, a, b, d);
      IterBasic(sh, a, b, d);
  }

  lemma {:induction false} UsingShape(s: Stmt, live: seq<Local>, depth: nat, at: nat, k: nat, loop: Loop)
    requires s.Using?
    ensures var o := GenStmt(s, live, depth, at, k, loop); Shaped(o.code, o.ok, loop)
    decreases s, 0
  {
    hide Basic, GenExpr, Size, Pops, Deeper, WhileOut, DoOut, IterOut, GenOpt, Op, Op16, Join, Back, Branch;
    var a := GenExpr(s.e, live, k);
    var base := at + Size(a.code) + 3;
    var c := GenCases(s.cases, live, depth, base, base, k + |a.consts|, loop);
    var sw := k + |a.consts| + |c.consts|;
    ExprBasic(s.e, live, k);
    CasesShape(s.cases, live, depth, base, base, k + |a.consts|, loop);
    BasicOps(sw);
    BasicJoin3(a.code, Op16(OP_SWITCH, sw), c.code);
  }

  lemma {:induction false} DeclsShape(ds: Decls, live: seq<Local>, depth: nat, at: nat, k: nat, loop: Loop)
    ensures var o := GenDecls(ds, live, depth, at, k, loop); Shaped(o.code, o.ok, loop)
    decreases ds, 1
  {
    hide Basic, GenExpr, GenStmt, Size, Clashes, Join, Op;
    match ds
    case Done => BasicNop();
    case Declare(x, init, rest) =>
      var a := if init.None? then Out(Op(OP_NIL), [], true, true) else GenExpr(init.value, live + [Local(x, -1)], k);
      if init.Some? { ExprBasic(init.value, live + [Local(x, -1)], k); }
      BasicOps(0);
      DeclsShape(rest, live + [Local(x, depth)], depth, at + Size(a.code), k + |a.consts|, loop);
      BasicJoin(a.code, GenDecls(rest, live + [Local(x, depth)], depth, at + Size(a.code), k + |a.consts|, loop).code);
    case Then(s, rest) =>
      var a := GenStmt(s, live, depth, at, k, loop);
      StmtShape(s, live, depth, at, k, loop);
      DeclsShape(rest, live, depth, at + Size(a.code), k + |a.consts|, loop);
      BasicJoin(a.code, GenDecls(rest, live, depth, at + Size(a.code), k + |a.consts|, loop).code);
  }

  lemma {:induction false} CasesShape(cases: Cases, live: seq<Local>, depth: nat, at: nat, base: nat, k: nat, loop: Loop)
    requires base <= at
    ensures var o := GenCases(cases, live, depth, at, base, k, loop); Shaped(o.code, o.ok, loop)
    decreases cases, 1
  {
    hide Basic, GenStmt, Size, LabelTable, Join, Op16;
    match cases
    case NoCase => BasicNop();
    case Default(body) => StmtShape(body, live, depth, at, k, loop);
    case When(labels, body, rest) =>
      var b := GenStmt(body, live, depth, at, k, loop);
      var r := GenCases(rest, live, depth, at + Size(b.code) + 3, base, k + |b.consts|, loop);
      StmtShape(body, live, depth, at, k, loop);
      CasesShape(rest, live, depth, at + Size(b.code) + 3, base, k + |b.consts|, loop);
      BasicOps(Size(r.code));
      BasicJoin3(b.code, Op16(OP_JUMP, Size(r.code)), r.code);
  }
}
