/** Static stack heights of whole functions: every instruction is reached with one height of the
    stack, every statement begins and ends with one value per local, and no path leads between
    instructions; exactly when every `break` and `continue` finds the stack it needs. */
module Balance {
  import opened Basics
  import opened Values
  import opened Bytecode
  import opened Syntax
  import opened Semantics
  import opened Codegen
  import opened Machine
  import opened CodeShape
  import opened ExprCorrectness
  import opened StmtCorrectness
  import opened CompilerCorrectness
  import opened Heights
  import opened Tidiness

  // ----- statement boundaries -----

  /** Where the statement `s` and the statements in it begin and end and where `continue` leads,
      each with the number of locals the compiler counts there. */
  ghost function Marks(s: Stmt, live: seq<Local>, depth: nat, at: nat, k: nat, loop: Loop): set<Spot>
    decreases s, 1
  {
    {Spot(at, |live|), Spot(at + Size(GenStmt(s, live, depth, at, k, loop).code), |live|)} + Inner(s, live, depth, at, k, loop)
  }

  ghost function Inner(s: Stmt, live: seq<Local>, depth: nat, at: nat, k: nat, loop: Loop): set<Spot>
    decreases s, 0
  {
    match s
    case Seq(s1, s2) =>
      var a := GenStmt(s1, live, depth, at, k, loop);
      Marks(s1, live, depth, at, k, loop) + Marks(s2, live, depth, at + Size(a.code), k + |a.consts|, loop)
    case Block(ds) => DeclMarks(ds, live, depth + 1, at, k, loop)
    case If(e, t, f) =>
      var a := GenExpr(e, live, k);
      var at1, k1 := at + Size(a.code) + 4, k + |a.consts|;
      var b := GenStmt(t, live, depth, at1, k1, loop);
      Marks(t, live, depth, at1, k1, loop) + Marks(f, live, depth, at1 + Size(b.code) + 4, k1 + |b.consts|, loop)
    case While(e, body) =>
      var a := GenExpr(e, live, k);
      Marks(body, live, depth, at + Size(a.code) + 4, k + |a.consts|, Loop(at, loop.depth, |live|))
    case DoWhile(body, e) => Marks(body, live, depth, at, k, Loop(at, loop.depth, |live|))
    case IterLoop(cond, incr, body) =>
      var c := GenOpt(cond, live, k);
      var i := GenOpt(incr, live, k + |c.consts|);
      var sh := IterShape(cond.Some?, incr.Some?, Size(c.code), Size(i.code), at);
      Marks(body, live, depth, sh.AtBody(), k + |c.consts| + |i.consts|, Loop(sh.Start(), depth, |live|))
      + {Spot(sh.Start(), |live|)}
    case Using(e, cases) =>
      var a := GenExpr(e, live, k);
      var base := at + Size(a.code) + 3;
      CaseMarks(cases, live, depth, base, base, k + |a.consts|, loop)
    case _ => {}
  }

  ghost function DeclMarks(ds: Decls, live: seq<Local>, depth: nat, at: nat, k: nat, loop: Loop): set<Spot>
    decreases ds, 0
  {
    match ds
    case Done => {Spot(at, |live|)}
    case Declare(x, init, rest) =>
      var a := InitOut(x, init, live, k);
      DeclMarks(rest, live + [Local(x, depth)], depth, at + Size(a.code), k + |a.consts|, loop)
    case Then(s, rest) =>
      var a := GenStmt(s, live, depth, at, k, loop);
      Marks(s, live, depth, at, k, loop) + DeclMarks(rest, live, depth, at + Size(a.code), k + |a.consts|, loop)
  }

  ghost function CaseMarks(cases: Cases, live: seq<Local>, depth: nat, at: nat, base: nat, k: nat, loop: Loop): set<Spot>
    decreases cases, 0
  {
    match cases
    case NoCase => {}
    case Default(body) => Marks(body, live, depth, at, k, loop)
    case When(labels, body, rest) =>
      var b := GenStmt(body, live, depth, at, k, loop);
      Marks(body, live, depth, at, k, loop) + CaseMarks(rest, live, depth, at + Size(b.code) + 3, base, k + |b.consts|, loop)
  }

  // ----- every statement -----

  /** What the compiler knows while it compiles a statement: how many locals there are, none
      declared deeper than the current scope, and whether there is a loop to leave. */
  ghost predicate Settled(live: seq<Local>, depth: nat, loop: Loop, brk: int) {
    && |live| <= MAX_LOCALS && (forall i :: 0 <= i < |live| ==> live[i].depth <= depth)
    && loop.start >= -1 && (loop.start >= 0 ==> brk >= 0)
  }

  /** At the start and at the end of every statement the stack holds exactly one value per
      local, on every path, and so it does where `continue` and `break` lead. */
  lemma {:induction false} StmtHeights(p: Program, s: Stmt, live: seq<Local>, depth: nat, at: nat, k: nat, loop: Loop, brk: int)
    requires Settled(live, depth, loop, brk) && InPlace(p, at, k, GenStmt(s, live, depth, at, k, loop), brk)
    ensures Level(p, GenStmt(s, live, depth, at, k, loop), at, live, Marks(s, live, depth, at, k, loop), |live|, loop, brk)
    decreases s, 2
  {
    hide Level, GenStmt, InPlace, Inner, Size;
    InnerHeights(p, s, live, depth, at, k, loop, brk);
    LevelEdges(p, GenStmt(s, live, depth, at, k, loop), at, live, Inner(s, live, depth, at, k, loop), loop, brk);
  }

  lemma {:induction false} LevelEdges(p: Program, o: Out, at: nat, live: seq<Local>, marks: set<Spot>, loop: Loop, brk: int)
    requires Level(p, o, at, live, marks, |live|, loop, brk)
    ensures Level(p, o, at, live, {Spot(at, |live|), Spot(at + Size(o.code), |live|)} + marks, |live|, loop, brk)
  {
    hide Flows, PatchBreaks, LoopExits;
    EdgesFlow(p, PatchBreaks(o.code, at, brk), at, |live|, marks, |live|, LoopExits(loop, brk));
  }

  lemma {:induction false} InnerHeights(p: Program, s: Stmt, live: seq<Local>, depth: nat, at: nat, k: nat, loop: Loop, brk: int)
    requires Settled(live, depth, loop, brk) && InPlace(p, at, k, GenStmt(s, live, depth, at, k, loop), brk)
    ensures Level(p, GenStmt(s, live, depth, at, k, loop), at, live, Inner(s, live, depth, at, k, loop), |live|, loop, brk)
    decreases s, 1
  {
    hide Level, GenStmt, InPlace, Inner;
    InnerNone(s, live, depth, at, k, loop);
    match s
    case Skip => SkipHeights(p, live, depth, at, k, loop, brk);
    case Seq(s1, s2) => SeqHeights(p, s1, s2, live, depth, at, k, loop, brk);
    case Eval(e) =>
      GenEval(e, live, depth, at, k, loop);
      ConsumeHeights(p, e, OP_POP, live, depth, at, k, loop, brk);
    case Echo(e) =>
      GenEval(e, live, depth, at, k, loop);
      ConsumeHeights(p, e, OP_ECHO, live, depth, at, k, loop, brk);
    case Block(ds) => BlockHeights(p, ds, live, depth, at, k, loop, brk);
    case If(e, t, f) => IfHeights(p, e, t, f, live, depth, at, k, loop, brk);
    case While(e, body) => WhileHeights(p, e, body, live, depth, at, k, loop, brk);
    case DoWhile(body, e) => DoHeights(p, body, e, live, depth, at, k, loop, brk);
    case IterLoop(c, i, body) => IterHeights(p, c, i, body, live, depth, at, k, loop, brk);
    case Using(e, cases) => UsingHeights(p, e, cases, live, depth, at, k, loop, brk);
    case Continue => ContinueHeights(p, live, depth, at, k, loop, brk);
    case Break => BreakHeights(p, live, depth, at, k, loop, brk);
    case Return(r) =>
      if r.None? {
        ReturnNothing(p, live, depth, at, k, loop, brk);
      } else {
        GenReturn(r.value, live, depth, at, k, loop);
        ConsumeHeights(p, r.value, OP_RETURN, live, depth, at, k, loop, brk);
      }
  }

  // The marks inside each kind of statement, one level at a time.

  lemma {:induction false} InnerNone(s: Stmt, live: seq<Local>, depth: nat, at: nat, k: nat, loop: Loop)
    ensures s.Skip? || s.Eval? || s.Echo? || s.Continue? || s.Break? || s.Return? ==> Inner(s, live, depth, at, k, loop) == {}
  {}

  lemma {:induction false} InnerSeq(s1: Stmt, s2: Stmt, live: seq<Local>, depth: nat, at: nat, k: nat, loop: Loop)
    ensures var a := GenStmt(s1, live, depth, at, k, loop);
            Inner(Seq(s1, s2), live, depth, at, k, loop) ==
            Marks(s1, live, depth, at, k, loop) + Marks(s2, live, depth, at + Size(a.code), k + |a.consts|, loop)
  {
    hide GenStmt, GenExpr, GenDecls, GenOpt, Size, Marks, DeclMarks, CaseMarks;
  }

  lemma {:induction false} InnerBlock(ds: Decls, live: seq<Local>, depth: nat, at: nat, k: nat, loop: Loop)
    ensures Inner(Block(ds), live, depth, at, k, loop) == DeclMarks(ds, live, depth + 1, at, k, loop)
  {
    hide GenStmt, GenExpr, GenDecls, GenOpt, Size, Marks, DeclMarks, CaseMarks;
  }

  lemma {:induction false} InnerIf(e: Expr, t: Stmt, f: Stmt, live: seq<Local>, depth: nat, at: nat, k: nat, loop: Loop)
    ensures var a := GenExpr(e, live, k); var at1 := at + Size(a.code) + 4; var k1 := k + |a.consts|;
            var b := GenStmt(t, live, depth, at1, k1, loop);
            Inner(If(e, t, f), live, depth, at, k, loop) ==
            Marks(t, live, depth, at1, k1, loop) + Marks(f, live, depth, at1 + Size(b.code) + 4, k1 + |b.consts|, loop)
  {
    hide GenStmt, GenExpr, GenDecls, GenOpt, Size, Marks, DeclMarks, CaseMarks;
  }

  lemma {:induction false} InnerWhile(e: Expr, body: Stmt, live: seq<Local>, depth: nat, at: nat, k: nat, loop: Loop)
    ensures var a := GenExpr(e, live, k);
            Inner(While(e, body), live, depth, at, k, loop) ==
            Marks(body, live, depth, at + Size(a.code) + 4, k + |a.consts|, Loop(at, loop.depth, |live|))
  {
    hide GenStmt, GenExpr, GenDecls, GenOpt, Size, Marks, DeclMarks, CaseMarks;
  }

  lemma {:induction false} InnerDo(body: Stmt, e: Expr, live: seq<Local>, depth: nat, at: nat, k: nat, loop: Loop)
    ensures Inner(DoWhile(body, e), live, depth, at, k, loop) == Marks(body, live, depth, at, k, Loop(at, loop.depth, |live|))
  {
    hide GenStmt, GenExpr, GenDecls, GenOpt, Size, Marks, DeclMarks, CaseMarks;
  }

  lemma {:induction false} InnerIter(cond: Option<Expr>, incr: Option<Expr>, body: Stmt, live: seq<Local>, depth: nat, at: nat, k: nat, loop: Loop)
    ensures var c := GenOpt(cond, live, k); var i := GenOpt(incr, live, k + |c.consts|);
            var sh := IterShape(cond.Some?, incr.Some?, Size(c.code), Size(i.code), at);
            Inner(IterLoop(cond, incr, body), live, depth, at, k, loop) ==
            Marks(body, live, depth, sh.AtBody(), k + |c.consts| + |i.consts|, Loop(sh.Start(), depth, |live|))
            + {Spot(sh.Start(), |live|)}
  {
    hide GenStmt, GenExpr, GenDecls, GenOpt, Size, Marks, DeclMarks, CaseMarks;
  }

  lemma {:induction false} InnerUsing(e: Expr, cases: Cases, live: seq<Local>, depth: nat, at: nat, k: nat, loop: Loop)
    ensures var a := GenExpr(e, live, k); var base := at + Size(a.code) + 3;
            Inner(Using(e, cases), live, depth, at, k, loop) == CaseMarks(cases, live, depth, base, base, k + |a.consts|, loop)
  {
    hide GenStmt, GenExpr, GenDecls, GenOpt, Size, Marks, DeclMarks, CaseMarks;
  }

  lemma {:induction false} SeqHeights(p: Program, s1: Stmt, s2: Stmt, live: seq<Local>, depth: nat, at: nat, k: nat, loop: Loop, brk: int)
    requires Settled(live, depth, loop, brk) && InPlace(p, at, k, GenStmt(Seq(s1, s2), live, depth, at, k, loop), brk)
    ensures Level(p, GenStmt(Seq(s1, s2), live, depth, at, k, loop), at, live, Inner(Seq(s1, s2), live, depth, at, k, loop), |live|, loop, brk)
    decreases Seq(s1, s2), 0
  {
    hide Level, GenStmt, InPlace, Inner, Marks, Settled, Size;
    var a := GenStmt(s1, live, depth, at, k, loop);
    var at1, k1 := at + Size(a.code), k + |a.consts|;
    var b := GenStmt(s2, live, depth, at1, k1, loop);
    GenSeq(s1, s2, live, depth, at, k, loop);
    SeqInPlace(p, at, k, a, b, brk);
    StmtHeights(p, s1, live, depth, at, k, loop, brk);
    StmtHeights(p, s2, live, depth, at1, k1, loop, brk);
    LevelSeq(p, a, b, GenStmt(Seq(s1, s2), live, depth, at, k, loop), at, live, live, Marks(s1, live, depth, at, k, loop),
      Marks(s2, live, depth, at1, k1, loop), |live|, loop, brk);
    InnerSeq(s1, s2, live, depth, at, k, loop);
  }

  lemma {:induction false} SkipHeights(p: Program, live: seq<Local>, depth: nat, at: nat, k: nat, loop: Loop, brk: int)
    ensures Level(p, GenStmt(Skip, live, depth, at, k, loop), at, live, {}, |live|, loop, brk)
  {
    hide Flows, LoopExits;
    NopFlows(p, at, |live|, LoopExits(loop, brk));
  }

  /** An expression statement, `echo` and `return`. */
  lemma {:induction false} ConsumeHeights(p: Program, e: Expr, op: byte, live: seq<Local>, depth: nat, at: nat, k: nat,
      loop: Loop, brk: int)
    requires Settled(live, depth, loop, brk) && InPlace(p, at, k, UnaryOut(GenExpr(e, live, k), Op(op)), brk)
    requires op == OP_POP || op == OP_ECHO || op == OP_RETURN
    ensures Level(p, UnaryOut(GenExpr(e, live, k), Op(op)), at, live, {}, |live|, loop, brk)
  {
    hide Flows, Has, GenExpr, ConstsAt, PatchBreaks, PatchFits, Level, LoopExits, Size;
    var a := GenExpr(e, live, k);
    QuietInPlace(p, at, k, UnaryOut(a, Op(op)), brk);
    UnarySits(p, at, k, a, Op(op));
    ExprHeights(p, e, live, live, k, at, |live|);
    ConsumeFlows(p, a.code, op, at, |live|, |live|);
    QuietLevel(p, UnaryOut(a, Op(op)), at, live, {}, |live|, loop, brk, {});
  }

  lemma {:induction false} ReturnNothing(p: Program, live: seq<Local>, depth: nat, at: nat, k: nat, loop: Loop, brk: int)
    requires InPlace(p, at, k, GenStmt(Return(None), live, depth, at, k, loop), brk)
    ensures Level(p, GenStmt(Return(None), live, depth, at, k, loop), at, live, {}, |live|, loop, brk)
  {
    hide Flows, Has, ConstsAt, PatchBreaks, PatchFits, LoopExits, Level;
    var o := Out(Join(Op(OP_EMPTY), Op(OP_RETURN)), [], true, true);
    assert GenStmt(Return(None), live, depth, at, k, loop) == o;
    QuietInPlace(p, at, k, o, brk);
    ReturnEmptyFlows(p, at, |live|, |live|);
    QuietLevel(p, o, at, live, {}, |live|, loop, brk, {});
  }

  lemma {:induction false} ReturnEmptyFlows(p: Program, at: nat, h: nat, out: int)
    requires Has(p, at, Join(Op(OP_EMPTY), Op(OP_RETURN)))
    ensures Straight(p, Join(Op(OP_EMPTY), Op(OP_RETURN)), at, h, out)
  {
    hide Straight, Has;
    HasCat(p, at, Op(OP_EMPTY), Op(OP_RETURN));
    PlainFlows(p, OP_EMPTY, at, h, h + 1);
    ReturnFlows(p, at + 1, h, out);
    StraightCat(p, Op(OP_EMPTY), Op(OP_RETURN), at, h, h + 1, out);
  }

  lemma {:induction false} ContinueHeights(p: Program, live: seq<Local>, depth: nat, at: nat, k: nat, loop: Loop, brk: int)
    requires Settled(live, depth, loop, brk) && InPlace(p, at, k, GenStmt(Continue, live, depth, at, k, loop), brk)
    ensures Level(p, GenStmt(Continue, live, depth, at, k, loop), at, live, {}, |live|, loop, brk)
  {
    hide Flows, Has, ConstsAt, PatchBreaks, PatchFits, Level, GenStmt, Back, Pops, Deeper;
    GenContinue(live, depth, at, k, loop);
    var m := Deeper(live, loop.depth);
    var o := GenStmt(Continue, live, depth, at, k, loop);
    var back := Spot(loop.start, loop.locals);
    PopsSize(m);
    BackQuiet(at + m, loop.start);
    QuietInPlace(p, at, k, o, brk);
    HasCat(p, at, Pops(m), Back(at + m, loop.start));
    PopsFlow(p, m, at, loop.locals);
    BackFlows(p, at + m, loop.start, loop.locals, |live|);
    CatFlows(p, Pops(m), Back(at + m, loop.start), at, |live|, loop.locals, |live|, {}, {}, {Spot(at + m, loop.locals)}, {back});
    FlowsWider(p, o.code, at, |live|, {} + {Spot(at + m, loop.locals)}, |live|, {back}, {}, {back});
    QuietLevel(p, o, at, live, {}, |live|, loop, brk, {back});
  }

  lemma {:induction false} BreakHeights(p: Program, live: seq<Local>, depth: nat, at: nat, k: nat, loop: Loop, brk: int)
    requires Settled(live, depth, loop, brk) && InPlace(p, at, k, GenStmt(Break, live, depth, at, k, loop), brk)
    ensures Level(p, GenStmt(Break, live, depth, at, k, loop), at, live, {}, |live|, loop, brk)
  {
    hide Flows, Has, ConstsAt, Short, GenStmt;
    GenBreak(live, depth, at, k, loop);
    var jump := Op16(OP_JUMP, brk - at - 3);
    JumpFlows(p, brk - at - 3, at, |live|, |live|);
    FlowsWider(p, jump, at, |live|, {Spot(at, |live|)}, |live|, {Spot(brk, |live|)}, {}, LoopExits(loop, brk));
  }

  lemma {:induction false} IfHeights(p: Program, e: Expr, t: Stmt, f: Stmt, live: seq<Local>, depth: nat, at: nat, k: nat,
      loop: Loop, brk: int)
    requires Settled(live, depth, loop, brk) && InPlace(p, at, k, GenStmt(If(e, t, f), live, depth, at, k, loop), brk)
    ensures Level(p, GenStmt(If(e, t, f), live, depth, at, k, loop), at, live, Inner(If(e, t, f), live, depth, at, k, loop), |live|, loop, brk)
    decreases If(e, t, f), 0
  {
    hide Flows, Has, GenExpr, GenStmt, ConstsAt, PatchBreaks, PatchFits, LoopExits, InPlace, Branch, Size, Marks, Inner;
    GenIf(e, t, f, live, depth, at, k, loop);
    var a := GenExpr(e, live, k);
    var at1 := at + Size(a.code) + 4;
    var b := GenStmt(t, live, depth, at1, k + |a.consts|, loop);
    var at2 := at1 + Size(b.code) + 4;
    var d := GenStmt(f, live, depth, at2, k + |a.consts| + |b.consts|, loop);
    IfInPlace(p, at, k, a, b, d, brk);
    ExprHeights(p, e, live, live, k, at, |live|);
    StmtHeights(p, t, live, depth, at1, k + |a.consts|, loop, brk);
    StmtHeights(p, f, live, depth, at2, k + |a.consts| + |b.consts|, loop, brk);
    PatchBranch(a.code, b.code, d.code, at, brk);
    BranchFlows(p, a.code, PatchBreaks(b.code, at1, brk), PatchBreaks(d.code, at2, brk), at, |live|,
      Marks(t, live, depth, at1, k + |a.consts|, loop), Marks(f, live, depth, at2, k + |a.consts| + |b.consts|, loop),
      |live|, LoopExits(loop, brk));
    InnerIf(e, t, f, live, depth, at, k, loop);
  }

  lemma {:induction false} WhileHeights(p: Program, e: Expr, body: Stmt, live: seq<Local>, depth: nat, at: nat, k: nat,
      loop: Loop, brk: int)
    requires Settled(live, depth, loop, brk) && InPlace(p, at, k, GenStmt(While(e, body), live, depth, at, k, loop), brk)
    ensures Level(p, GenStmt(While(e, body), live, depth, at, k, loop), at, live, Inner(While(e, body), live, depth, at, k, loop), |live|, loop, brk)
    decreases While(e, body), 0
  {
    hide Flows, Has, GenExpr, GenStmt, ConstsAt, PatchBreaks, PatchFits, LoopExits, Level, WhileOut, Size, Marks, Inner;
    GenWhile(e, body, live, depth, at, k, loop);
    var a := GenExpr(e, live, k);
    var at1 := at + Size(a.code) + 4;
    var inner := Loop(at, loop.depth, |live|);
    var b := GenStmt(body, live, depth, at1, k + |a.consts|, inner);
    WhileQuiet(a, b, at);
    QuietInPlace(p, at, k, WhileOut(a, b, at), brk);
    WhileSits(p, at, k, a, b);
    ExprHeights(p, e, live, live, k, at, |live|);
    StmtHeights(p, body, live, depth, at1, k + |a.consts|, inner, at1 + Size(b.code) + 4);
    var marks := Marks(body, live, depth, at1, k + |a.consts|, inner);
    WhileFlows(p, a, b, at, k, live, marks, loop.depth);
    QuietLevel(p, WhileOut(a, b, at), at, live, marks, |live|, loop, brk, {});
    InnerWhile(e, body, live, depth, at, k, loop);
  }

  lemma {:induction false} DoHeights(p: Program, body: Stmt, e: Expr, live: seq<Local>, depth: nat, at: nat, k: nat,
      loop: Loop, brk: int)
    requires Settled(live, depth, loop, brk) && InPlace(p, at, k, GenStmt(DoWhile(body, e), live, depth, at, k, loop), brk)
    ensures Level(p, GenStmt(DoWhile(body, e), live, depth, at, k, loop), at, live, Inner(DoWhile(body, e), live, depth, at, k, loop), |live|, loop, brk)
    decreases DoWhile(body, e), 0
  {
    hide Flows, Has, GenExpr, GenStmt, ConstsAt, PatchBreaks, PatchFits, LoopExits, Level, DoOut, Size, Marks, Inner;
    GenDo(body, e, live, depth, at, k, loop);
    var inner := Loop(at, loop.depth, |live|);
    var b := GenStmt(body, live, depth, at, k, inner);
    var a := GenExpr(e, live, k + |b.consts|);
    DoQuiet(b, a, at);
    QuietInPlace(p, at, k, DoOut(b, a, at), brk);
    DoSits(p, at, k, b, a);
    ExprHeights(p, e, live, live, k + |b.consts|, at + Size(b.code), |live|);
    StmtHeights(p, body, live, depth, at, k, inner, at + Size(b.code) + Size(a.code) + 8);
    var marks := Marks(body, live, depth, at, k, inner);
    DoFlows(p, b, a, at, k, live, marks, loop.depth);
    QuietLevel(p, DoOut(b, a, at), at, live, marks, |live|, loop, brk, {});
    InnerDo(body, e, live, depth, at, k, loop);
  }

  lemma {:induction false} IterHeights(p: Program, cond: Option<Expr>, incr: Option<Expr>, body: Stmt, live: seq<Local>,
      depth: nat, at: nat, k: nat, loop: Loop, brk: int)
    requires Settled(live, depth, loop, brk)
    requires InPlace(p, at, k, GenStmt(IterLoop(cond, incr, body), live, depth, at, k, loop), brk)
    ensures Level(p, GenStmt(IterLoop(cond, incr, body), live, depth, at, k, loop), at, live, Inner(IterLoop(cond, incr, body), live, depth, at, k, loop), |live|, loop, brk)
    decreases IterLoop(cond, incr, body), 0
  {
    hide Flows, Has, GenExpr, GenStmt, ConstsAt, PatchBreaks, PatchFits, LoopExits, Level, IterOut, Size, Back, BackFits, Marks, Inner;
    GenIter(cond, incr, body, live, depth, at, k, loop);
    var c := GenOpt(cond, live, k);
    var i := GenOpt(incr, live, k + |c.consts|);
    var sh := IterShape(cond.Some?, incr.Some?, Size(c.code), Size(i.code), at);
    var inner := Loop(sh.Start(), depth, |live|);
    var k2 := k + |c.consts| + |i.consts|;
    var b := GenStmt(body, live, depth, sh.AtBody(), k2, inner);
    IterQuiet(sh, c, i, b);
    QuietInPlace(p, at, k, IterOut(sh, c, i, b), brk);
    IterSits(p, k, sh, c, i, b);
    if cond.Some? { ExprHeights(p, cond.value, live, live, k, at, |live|); }
    if incr.Some? { ExprHeights(p, incr.value, live, live, k + |c.consts|, sh.AtIncr(), |live|); }
    var end := sh.AtBody() + Size(b.code) + 3 + if sh.hasCond then 1 else 0;
    StmtHeights(p, body, live, depth, sh.AtBody(), k2, inner, end);
    var marks := Marks(body, live, depth, sh.AtBody(), k2, inner);
    IterFlows(p, k, sh, c, i, b, live, marks, depth);
    QuietLevel(p, IterOut(sh, c, i, b), at, live, marks + {Spot(sh.Start(), |live|)}, |live|, loop, brk, {});
    InnerIter(cond, incr, body, live, depth, at, k, loop);
  }

  lemma {:induction false} UsingHeights(p: Program, e: Expr, cases: Cases, live: seq<Local>, depth: nat, at: nat, k: nat,
      loop: Loop, brk: int)
    requires Settled(live, depth, loop, brk) && InPlace(p, at, k, GenStmt(Using(e, cases), live, depth, at, k, loop), brk)
    ensures Level(p, GenStmt(Using(e, cases), live, depth, at, k, loop), at, live, Inner(Using(e, cases), live, depth, at, k, loop), |live|, loop, brk)
    decreases Using(e, cases), 0
  {
    hide Flows, Has, GenExpr, GenStmt, GenCases, ConstsAt, PatchBreaks, PatchFits, LoopExits, Level, UsingOut, Size, InPlace, CasesLevel, CaseMarks, Inner;
    GenUsing(e, cases, live, depth, at, k, loop);
    var a := GenExpr(e, live, k);
    var base := at + Size(a.code) + 3;
    var c := GenCases(cases, live, depth, base, base, k + |a.consts|, loop);
    UsingInPlace(p, at, k, a, c, brk);
    DefaultAhead(cases, live, depth, base, base, k + |a.consts|, loop);
    ExprHeights(p, e, live, live, k, at, |live|);
    CasesHeights(p, cases, live, depth, base, base, k + |a.consts|, loop, brk);
    UsingFlows(p, a, c, at, k, live, CaseMarks(cases, live, depth, base, base, k + |a.consts|, loop), loop, brk);
    InnerUsing(e, cases, live, depth, at, k, loop);
  }

  lemma {:induction false} CasesHeights(p: Program, cases: Cases, live: seq<Local>, depth: nat, at: nat, base: nat, k: nat,
      loop: Loop, brk: int)
    requires base <= at && Settled(live, depth, loop, brk)
    requires InPlace(p, at, k, PlainCases(GenCases(cases, live, depth, at, base, k, loop)), brk)
    ensures CasesLevel(p, GenCases(cases, live, depth, at, base, k, loop), at, base, live,
                       CaseMarks(cases, live, depth, at, base, k, loop), loop, brk)
    decreases cases
  {
    hide Flows, GenStmt, InPlace, CasesLevel, Level, Size, LabelTable, Settled, Has, Op16, Marks;
    var c := GenCases(cases, live, depth, at, base, k, loop);
    match cases
    case NoCase => NoCaseFlows(p, c, at, base, live, loop, brk);
    case Default(body) =>
      StmtHeights(p, body, live, depth, at, k, loop, brk);
      DefaultFlows(p, GenStmt(body, live, depth, at, k, loop), c, at, base, live, Marks(body, live, depth, at, k, loop), loop, brk);
    case When(labels, body, rest) =>
      CasesUnfold(cases, live, depth, at, base, k, loop);
      var b := GenStmt(body, live, depth, at, k, loop);
      var at1 := at + Size(b.code) + 3;
      var r := GenCases(rest, live, depth, at1, base, k + |b.consts|, loop);
      CodeFits(p, at, k, PlainCases(c), brk);
      WhenInPlace(p, at, k, b, PlainCases(r), LNil !in labels && Size(r.code) <= MAX_OPERAND, brk);
      StmtHeights(p, body, live, depth, at, k, loop, brk);
      CasesHeights(p, rest, live, depth, at1, base, k + |b.consts|, loop, brk);
      WhenFlows(p, labels, b, r, c, at, base, live, Marks(body, live, depth, at, k, loop),
        CaseMarks(rest, live, depth, at1, base, k + |b.consts|, loop), loop, brk);
  }

  lemma {:induction false} BlockHeights(p: Program, ds: Decls, live: seq<Local>, depth: nat, at: nat, k: nat, loop: Loop, brk: int)
    requires Settled(live, depth, loop, brk) && InPlace(p, at, k, GenStmt(Block(ds), live, depth, at, k, loop), brk)
    ensures Level(p, GenStmt(Block(ds), live, depth, at, k, loop), at, live, Inner(Block(ds), live, depth, at, k, loop), |live|, loop, brk)
    decreases Block(ds), 0
  {
    hide Flows, GenStmt, GenDecls, InPlace, Level, Size, Has, Pops, Deeper, PatchBreaks, LoopExits, DeclMarks, Inner;
    GenBlock(ds, live, depth, at, k, loop);
    var a := GenDecls(ds, live, depth + 1, at, k, loop);
    var m := Deeper(a.locals, depth);
    BlockInPlace(p, at, k, Plain(a), m, brk);
    DeclsLocals(ds, live, depth + 1, at, k, loop, live);
    DeeperCounts(live, a.locals, depth);
    DeclsHeights(p, ds, live, depth + 1, at, k, loop, brk);
    PopsFlow(p, m, at + Size(a.code), |live|);
    PopsSize(m);
    var pops := Out(Pops(m), [], true, true);
    QuietLevel(p, pops, at + Size(a.code), a.locals, {}, |live|, loop, brk, {});
    var marks := DeclMarks(ds, live, depth + 1, at, k, loop);
    LevelSeq(p, Plain(a), pops, GenStmt(Block(ds), live, depth, at, k, loop), at, live, a.locals, marks, {}, |live|, loop, brk);
    assert marks + {} == marks;
    InnerBlock(ds, live, depth, at, k, loop);
  }

  /** Each declaration leaves its initial value where the new local's slot is. */
  lemma {:induction false} DeclsHeights(p: Program, ds: Decls, live: seq<Local>, depth: nat, at: nat, k: nat, loop: Loop, brk: int)
    requires Settled(live, depth, loop, brk) && InPlace(p, at, k, Plain(GenDecls(ds, live, depth, at, k, loop)), brk)
    ensures var o := GenDecls(ds, live, depth, at, k, loop);
            Level(p, Plain(o), at, live, DeclMarks(ds, live, depth, at, k, loop), |o.locals|, loop, brk)
    decreases ds
  {
    hide Flows, GenStmt, GenDecls, InPlace, Level, Size, Has, PatchBreaks, LoopExits, Clashes, Marks, InitOut;
    var o := GenDecls(ds, live, depth, at, k, loop);
    match ds
    case Done =>
      GenDone(live, depth, at, k, loop);
      DoneHeights(p, Plain(o), at, live, loop, brk);
    case Declare(x, init, rest) =>
      GenDeclared(x, init, rest, live, depth, at, k, loop);
      var a := InitOut(x, init, live, k);
      var at1 := at + Size(a.code);
      var live' := live + [Local(x, depth)];
      var b := GenDecls(rest, live', depth, at1, k + |a.consts|, loop);
      InitTidy(x, init, live, k);
      CodeFits(p, at, k, Plain(o), brk);
      DeclareInPlace(p, at, k, a, Plain(b), brk, !Clashes(live, depth, x) && |live| < MAX_LOCALS);
      InitHeights(p, x, init, live, k, at);
      QuietLevel(p, a, at, live, {}, |live'|, loop, brk, {});
      DeclsHeights(p, rest, live', depth, at1, k + |a.consts|, loop, brk);
      var marks := DeclMarks(rest, live', depth, at1, k + |a.consts|, loop);
      LevelSeq(p, a, Plain(b), Plain(o), at, live, live', {}, marks, |b.locals|, loop, brk);
      assert {} + marks == marks;
    case Then(s, rest) =>
      GenThen(s, rest, live, depth, at, k, loop);
      var a := GenStmt(s, live, depth, at, k, loop);
      var at1 := at + Size(a.code);
      var b := GenDecls(rest, live, depth, at1, k + |a.consts|, loop);
      SeqInPlace(p, at, k, a, Plain(b), brk);
      StmtHeights(p, s, live, depth, at, k, loop, brk);
      DeclsHeights(p, rest, live, depth, at1, k + |a.consts|, loop, brk);
      LevelSeq(p, a, Plain(b), Plain(o), at, live, live, Marks(s, live, depth, at, k, loop),
        DeclMarks(rest, live, depth, at1, k + |a.consts|, loop), |b.locals|, loop, brk);
  }

  lemma {:induction false} DoneHeights(p: Program, o: Out, at: nat, live: seq<Local>, loop: Loop, brk: int)
    requires o.code == Nop
    ensures Level(p, o, at, live, {Spot(at, |live|)}, |live|, loop, brk)
  {
    hide Flows, LoopExits;
    var exits := LoopExits(loop, brk);
    NopFlows(p, at, |live|, exits);
    EdgesFlow(p, Nop, at, |live|, {}, |live|, exits);
    FlowsWider(p, Nop, at, |live|, {Spot(at, |live|), Spot(at + 0, |live|)} + {}, |live|, exits, {Spot(at, |live|)}, exits);
  }

  lemma {:induction false} InitTidy(x: string, init: Option<Expr>, live: seq<Local>, k: nat)
    ensures InitOut(x, init, live, k).tidy && NoBreaks(InitOut(x, init, live, k).code)
  {
    hide GenExpr;
  }

  lemma {:induction false} InitHeights(p: Program, x: string, init: Option<Expr>, live: seq<Local>, k: nat, at: nat)
    requires |live| <= MAX_LOCALS && Sits(p, at, k, InitOut(x, init, live, k))
    ensures Straight(p, InitOut(x, init, live, k).code, at, |live|, |live| + 1)
  {
    hide Straight, GenExpr, Has;
    if init.None? {
      PlainFlows(p, OP_NIL, at, |live|, |live| + 1);
    } else {
      var listed := live + [Local(x, -1)];
      assert listed[..|live|] == live;
      ExprHeights(p, init.value, listed, live, k, at, |live|);
    }
  }

  // ----- whole functions -----

  ghost predicate Closed(p: Program, m: map<nat, nat>, q: nat)
    requires q in m
  {
    var next := Next(p, q, m[q]);
    next.Some? && forall t :: t in next.value ==> Lands(t, m)
  }

  /** Where the statements of `f` begin and end. */
  ghost function Boundaries(f: Function): set<Spot> {
    DeclMarks(f.body, ParamLocals(f.params), 1, 0, 0, NO_LOOP)
  }

  /** `m` gives every instruction of `f`, and nothing else, a height that is right whatever path
      leads to it: on entry the callee and the arguments, at the beginning and end of every
      statement as many values as there are locals; and no instruction leads outside `m`. */
  ghost predicate Balanced(f: Function, m: map<nat, nat>) {
    && m.Keys == Starts(GenFunction(f).code, 0)
    && Lands(Spot(0, 1 + |f.params|), m)
    && (forall t :: t in Boundaries(f) ==> Lands(t, m))
    && (forall q :: q in m ==> Closed(Compiled(f), m, q))
  }

  lemma {:induction false} ParamsSettled(params: seq<string>)
    requires |params| < MAX_LOCALS
    ensures Settled(ParamLocals(params), 1, NO_LOOP, -1)
  {
    var live := ParamLocals(params);
    forall i | 0 <= i < |live| ensures live[i].depth <= 1 {
      if i > 0 { assert live[i] == Local(params[i - 1], 1); }
    }
  }

  lemma {:induction false} BodyFlows(f: Function)
    requires Accepted(f)
    ensures Flows(Compiled(f), GenFunction(f).code, 0, 1 + |f.params|, Boundaries(f), -1, {})
  {
    hide Flows, GenDecls, Has, ConstsAt, Size, PatchBreaks, Encode, Level, InPlace, Settled, DistinctNames, Op, DeclMarks;
    var p, live := Compiled(f), ParamLocals(f.params);
    var b := GenDecls(f.body, live, 1, 0, 0, NO_LOOP);
    CompiledSits(f);
    DeclsShape(f.body, live, 1, 0, 0, NO_LOOP);
    QuietIsInPlace(p, 0, 0, Plain(b));
    ParamsSettled(f.params);
    DeclsHeights(p, f.body, live, 1, 0, 0, NO_LOOP, -1);
    PatchLeavesAlone(b.code, 0, -1);
    LevelPlain(p, Plain(b), 0, live, Boundaries(f), |b.locals|);
    ReturnEmptyFlows(p, Size(b.code), |b.locals|, -1);
    CatFlows(p, b.code, Join(Op(OP_EMPTY), Op(OP_RETURN)), 0, |live|, |b.locals|, -1, Boundaries(f), {}, {}, {});
    assert Boundaries(f) + {} == Boundaries(f);
  }

  lemma {:induction false} LevelPlain(p: Program, o: Out, at: nat, live: seq<Local>, marks: set<Spot>, out: nat)
    requires Level(p, o, at, live, marks, out, NO_LOOP, -1) && PatchBreaks(o.code, at, -1) == o.code
    ensures Flows(p, o.code, at, |live|, marks, out, {})
  {
    hide Flows, PatchBreaks;
  }

  /** An accepted function has static stack heights. */
  lemma {:induction false} HeightsExist(f: Function) returns (m: map<nat, nat>)
    requires Accepted(f)
    ensures Balanced(f, m)
  {
    hide GenDecls, Next, Starts, Encode, DeclMarks;
    BodyFlows(f);
    var p, c, h := Compiled(f), GenFunction(f).code, 1 + |f.params|;
    m :| Assigns(p, c, 0, m, h, Boundaries(f), -1, {});
    forall q | q in m ensures Closed(p, m, q) {
      assert Follows(p, m, q, Size(c), -1, {});
    }
  }

  /** In every run the machine stands at the start of an instruction with exactly the height
      that instruction has, and it never reads outside the code, the stack or the constants. */
  lemma {:induction false} RunsBalanced(w: World, f: Function, callee: Value, args: seq<Value>, globals: map<string, Value>,
      m: map<nat, nat>, n: nat)
    requires Balanced(f, m) && |args| == |f.params|
    ensures OnMap(Steps(w, Compiled(f), Start(callee, args, globals), n), m)
  {
    hide Balanced, Compiled, OnMap, Steps;
    assert OnMap(Start(callee, args, globals), m) by { EntryOnMap(f, callee, args, globals, m); }
    StaysOnMap(w, f, Start(callee, args, globals), m, n);
  }

  ghost predicate OnMap(s: State, m: map<nat, nat>) {
    match s
    case Running(ip, stack, _, _) => Lands(Spot(ip, |stack|), m)
    case Stuck => false
    case _ => true
  }

  lemma {:induction false} EntryOnMap(f: Function, callee: Value, args: seq<Value>, globals: map<string, Value>, m: map<nat, nat>)
    requires Balanced(f, m) && |args| == |f.params|
    ensures OnMap(Start(callee, args, globals), m)
  {
    hide Starts, GenFunction, Closed;
    assert |[callee] + args| == 1 + |f.params|;
  }

  lemma {:induction false} StaysOnMap(w: World, f: Function, s: State, m: map<nat, nat>, n: nat)
    requires Balanced(f, m) && OnMap(s, m)
    ensures OnMap(Steps(w, Compiled(f), s, n), m)
    decreases n
  {
    hide Machine.Step, Starts, GenFunction, Next, Compiled;
    if n > 0 {
      var s1 := Machine.Step(w, Compiled(f), s);
      if s.Running? {
        assert Closed(Compiled(f), m, s.ip);
        StepSafe(w, Compiled(f), s);
      } else {
        EndedStays(w, Compiled(f), s, 1);
      }
      StaysOnMap(w, f, s1, m, n - 1);
    }
  }

  // ----- heights force neatness -----

  ghost predicate OnPaths(p: Program, m: map<nat, nat>) { forall q :: q in m ==> Closed(p, m, q) }

  ghost predicate AllLand(marks: set<Spot>, m: map<nat, nat>) { forall t :: t in marks ==> Lands(t, m) }

  /** Output `o` is in place, tidy or not. */
  ghost predicate Placed(p: Program, at: nat, k: nat, o: Out, brk: int) { InPlace(p, at, k, Tidied(o), brk) }

  ghost function Tidied(o: Out): Out { o.(tidy := true) }

  /** The places `continue` and `break` lead to have the height of the loop. */
  ghost predicate LoopLands(loop: Loop, brk: int, m: map<nat, nat>) {
    && loop.start >= -1
    && (loop.start >= 0 ==> brk >= 0 && Lands(Spot(loop.start, loop.locals), m) && Lands(Spot(brk, loop.locals), m))
  }

  /** Pops on the map take the height down one by one. */
  lemma {:induction false} PopsForce(p: Program, m: map<nat, nat>, at: nat, h: nat, n: nat)
    requires OnPaths(p, m) && Lands(Spot(at, h), m) && Has(p, at, Pops(n))
    ensures n <= h && Lands(Spot(at + n, h - n), m)
    decreases n
  {
    hide Has, Size, OnPaths, Lands;
    if n > 0 {
      HasCat(p, at, Op(OP_POP), Pops(n - 1));
      PopForces(p, m, at, h);
      PopsForce(p, m, at + 1, h - 1, n - 1);
    }
  }

  lemma {:induction false} PopForces(p: Program, m: map<nat, nat>, at: nat, h: nat)
    requires OnPaths(p, m) && Lands(Spot(at, h), m) && Has(p, at, Op(OP_POP))
    ensures h > 0 && Lands(Spot(at + 1, h - 1), m)
  {
    hide Has, Next;
    PlainNext(p, OP_POP, at, h);
    assert Closed(p, m, at);
    assert Spot(at + 1, h - 1) in Next(p, at, h).value;
  }

  lemma {:induction false} BreakForced(p: Program, m: map<nat, nat>, live: seq<Local>, depth: nat, at: nat, k: nat, loop: Loop, brk: int)
    requires OnPaths(p, m) && LoopLands(loop, brk, m) && Placed(p, at, k, GenStmt(Break, live, depth, at, k, loop), brk)
    requires Lands(Spot(at, |live|), m)
    ensures GenStmt(Break, live, depth, at, k, loop).tidy
  {
    hide Has, ConstsAt, Short, GenStmt, Next;
    GenBreak(live, depth, at, k, loop);
    ArgNext(p, OP_JUMP, brk - at - 3, at, |live|);
    assert Closed(p, m, at);
    assert Spot(brk, |live|) in Next(p, at, |live|).value;
  }

  lemma {:induction false} ContinueForced(p: Program, m: map<nat, nat>, live: seq<Local>, depth: nat, at: nat, k: nat, loop: Loop, brk: int)
    requires OnPaths(p, m) && LoopLands(loop, brk, m) && Placed(p, at, k, GenStmt(Continue, live, depth, at, k, loop), brk)
    requires Lands(Spot(at, |live|), m)
    ensures GenStmt(Continue, live, depth, at, k, loop).tidy
  {
    hide Has, ConstsAt, PatchBreaks, PatchFits, GenStmt, Pops, Deeper, Next, Short;
    GenContinue(live, depth, at, k, loop);
    var n := Deeper(live, loop.depth);
    var o := GenStmt(Continue, live, depth, at, k, loop);
    PopsSize(n);
    BackQuiet(at + n, loop.start);
    QuietInPlace(p, at, k, Tidied(o), brk);
    HasCat(p, at, Pops(n), Back(at + n, loop.start));
    PopsForce(p, m, at, |live|, n);
    ArgNext(p, OP_LOOP, at + n + 3 - loop.start, at + n, |live| - n);
    assert Closed(p, m, at + n);
    assert Spot(loop.start, |live| - n) in Next(p, at + n, |live| - n).value;
  }

  /** A statement whose code has static heights, one value per local at its boundaries, jumps out
      of loops only with the height the loop has. */
  lemma {:induction false} StmtForced(p: Program, m: map<nat, nat>, s: Stmt, live: seq<Local>, depth: nat, at: nat, k: nat,
      loop: Loop, brk: int)
    requires OnPaths(p, m) && LoopLands(loop, brk, m) && AllLand(Marks(s, live, depth, at, k, loop), m)
    requires Placed(p, at, k, GenStmt(s, live, depth, at, k, loop), brk)
    ensures GenStmt(s, live, depth, at, k, loop).tidy
    decreases s, 1
  {
    hide GenStmt, OnPaths, Placed, Inner, LoopLands, Size;
    MarksLand(s, live, depth, at, k, loop, m);
    match s
    case Seq(s1, s2) => SeqForced(p, m, s1, s2, live, depth, at, k, loop, brk);
    case Block(ds) => BlockForced(p, m, ds, live, depth, at, k, loop, brk);
    case If(e, t, f) => IfForced(p, m, e, t, f, live, depth, at, k, loop, brk);
    case While(e, body) => WhileForced(p, m, e, body, live, depth, at, k, loop, brk);
    case DoWhile(body, e) => DoForced(p, m, body, e, live, depth, at, k, loop, brk);
    case IterLoop(c, i, body) => IterForced(p, m, c, i, body, live, depth, at, k, loop, brk);
    case Using(e, cases) => UsingForced(p, m, e, cases, live, depth, at, k, loop, brk);
    case Continue => ContinueForced(p, m, live, depth, at, k, loop, brk);
    case Break => BreakForced(p, m, live, depth, at, k, loop, brk);
    case _ => AlwaysTidy(s, live, depth, at, k, loop);
  }

  lemma {:induction false} MarksLand(s: Stmt, live: seq<Local>, depth: nat, at: nat, k: nat, loop: Loop, m: map<nat, nat>)
    requires AllLand(Marks(s, live, depth, at, k, loop), m)
    ensures Lands(Spot(at, |live|), m) && Lands(Spot(at + Size(GenStmt(s, live, depth, at, k, loop).code), |live|), m)
    ensures AllLand(Inner(s, live, depth, at, k, loop), m)
  {
    hide GenStmt, Inner, Size, Lands;
    var marks := Marks(s, live, depth, at, k, loop);
    assert Spot(at, |live|) in marks && Spot(at + Size(GenStmt(s, live, depth, at, k, loop).code), |live|) in marks;
  }

  lemma {:induction false} AlwaysTidy(s: Stmt, live: seq<Local>, depth: nat, at: nat, k: nat, loop: Loop)
    requires s.Skip? || s.Eval? || s.Echo? || s.Return?
    ensures GenStmt(s, live, depth, at, k, loop).tidy
  {
    hide GenExpr, Join, Op;
  }

  lemma {:induction false} SeqForced(p: Program, m: map<nat, nat>, s1: Stmt, s2: Stmt, live: seq<Local>, depth: nat, at: nat, k: nat,
      loop: Loop, brk: int)
    requires OnPaths(p, m) && LoopLands(loop, brk, m) && AllLand(Inner(Seq(s1, s2), live, depth, at, k, loop), m)
    requires Placed(p, at, k, GenStmt(Seq(s1, s2), live, depth, at, k, loop), brk)
    ensures GenStmt(Seq(s1, s2), live, depth, at, k, loop).tidy
    decreases Seq(s1, s2), 0
  {
    hide GenStmt, OnPaths, InPlace, Inner, Marks, LoopLands, Size, Lands;
    GenSeq(s1, s2, live, depth, at, k, loop);
    InnerSeq(s1, s2, live, depth, at, k, loop);
    var a := GenStmt(s1, live, depth, at, k, loop);
    var at1, k1 := at + Size(a.code), k + |a.consts|;
    SeqInPlace(p, at, k, Tidied(a), Tidied(GenStmt(s2, live, depth, at1, k1, loop)), brk);
    StmtForced(p, m, s1, live, depth, at, k, loop, brk);
    StmtForced(p, m, s2, live, depth, at1, k1, loop, brk);
  }

  lemma {:induction false} IfForced(p: Program, m: map<nat, nat>, e: Expr, t: Stmt, f: Stmt, live: seq<Local>, depth: nat, at: nat, k: nat,
      loop: Loop, brk: int)
    requires OnPaths(p, m) && LoopLands(loop, brk, m) && AllLand(Inner(If(e, t, f), live, depth, at, k, loop), m)
    requires Placed(p, at, k, GenStmt(If(e, t, f), live, depth, at, k, loop), brk)
    ensures GenStmt(If(e, t, f), live, depth, at, k, loop).tidy
    decreases If(e, t, f), 0
  {
    hide GenStmt, GenExpr, OnPaths, InPlace, Inner, Marks, LoopLands, Size, Lands, Branch, Has, Sits, Op, Op16, BranchFits;
    GenIf(e, t, f, live, depth, at, k, loop);
    InnerIf(e, t, f, live, depth, at, k, loop);
    var a := GenExpr(e, live, k);
    var at1, k1 := at + Size(a.code) + 4, k + |a.consts|;
    var b := GenStmt(t, live, depth, at1, k1, loop);
    var at2, k2 := at1 + Size(b.code) + 4, k1 + |b.consts|;
    IfInPlace(p, at, k, a, Tidied(b), Tidied(GenStmt(f, live, depth, at2, k2, loop)), brk);
    StmtForced(p, m, t, live, depth, at1, k1, loop, brk);
    StmtForced(p, m, f, live, depth, at2, k2, loop, brk);
  }

  lemma {:induction false} WhileForced(p: Program, m: map<nat, nat>, e: Expr, body: Stmt, live: seq<Local>, depth: nat, at: nat, k: nat,
      loop: Loop, brk: int)
    requires OnPaths(p, m) && AllLand(Inner(While(e, body), live, depth, at, k, loop), m) && Lands(Spot(at, |live|), m)
    requires Lands(Spot(at + Size(GenStmt(While(e, body), live, depth, at, k, loop).code), |live|), m)
    requires Placed(p, at, k, GenStmt(While(e, body), live, depth, at, k, loop), brk)
    ensures GenStmt(While(e, body), live, depth, at, k, loop).tidy
    decreases While(e, body), 0
  {
    hide GenStmt, GenExpr, OnPaths, InPlace, Inner, Marks, Size, Lands, Has, Sits, Op, Op16, PatchBreaks, PatchFits, Back, BackFits;
    GenWhile(e, body, live, depth, at, k, loop);
    InnerWhile(e, body, live, depth, at, k, loop);
    var a := GenExpr(e, live, k);
    var at1, inner := at + Size(a.code) + 4, Loop(at, loop.depth, |live|);
    var b := GenStmt(body, live, depth, at1, k + |a.consts|, inner);
    WhileQuiet(a, Tidied(b), at);
    QuietInPlace(p, at, k, WhileOut(a, Tidied(b), at), brk);
    WhileSits(p, at, k, a, Tidied(b));
    StmtForced(p, m, body, live, depth, at1, k + |a.consts|, inner, at1 + Size(b.code) + 4);
  }

  lemma {:induction false} DoForced(p: Program, m: map<nat, nat>, body: Stmt, e: Expr, live: seq<Local>, depth: nat, at: nat, k: nat,
      loop: Loop, brk: int)
    requires OnPaths(p, m) && AllLand(Inner(DoWhile(body, e), live, depth, at, k, loop), m) && Lands(Spot(at, |live|), m)
    requires Lands(Spot(at + Size(GenStmt(DoWhile(body, e), live, depth, at, k, loop).code), |live|), m)
    requires Placed(p, at, k, GenStmt(DoWhile(body, e), live, depth, at, k, loop), brk)
    ensures GenStmt(DoWhile(body, e), live, depth, at, k, loop).tidy
    decreases DoWhile(body, e), 0
  {
    hide GenStmt, GenExpr, OnPaths, InPlace, Inner, Marks, Size, Lands, Has, Sits, Op, Op16, PatchBreaks, PatchFits, Back, BackFits;
    GenDo(body, e, live, depth, at, k, loop);
    InnerDo(body, e, live, depth, at, k, loop);
    var inner := Loop(at, loop.depth, |live|);
    var b := GenStmt(body, live, depth, at, k, inner);
    var a := GenExpr(e, live, k + |b.consts|);
    DoQuiet(Tidied(b), a, at);
    QuietInPlace(p, at, k, DoOut(Tidied(b), a, at), brk);
    DoSits(p, at, k, Tidied(b), a);
    StmtForced(p, m, body, live, depth, at, k, inner, at + Size(b.code) + Size(a.code) + 8);
  }

  lemma {:induction false} IterForced(p: Program, m: map<nat, nat>, cond: Option<Expr>, incr: Option<Expr>, body: Stmt, live: seq<Local>,
      depth: nat, at: nat, k: nat, loop: Loop, brk: int)
    requires OnPaths(p, m) && AllLand(Inner(IterLoop(cond, incr, body), live, depth, at, k, loop), m)
    requires Lands(Spot(at + Size(GenStmt(IterLoop(cond, incr, body), live, depth, at, k, loop).code), |live|), m)
    requires Placed(p, at, k, GenStmt(IterLoop(cond, incr, body), live, depth, at, k, loop), brk)
    ensures GenStmt(IterLoop(cond, incr, body), live, depth, at, k, loop).tidy
    decreases IterLoop(cond, incr, body), 0
  {
    hide GenStmt, GenOpt, OnPaths, InPlace, Inner, Marks, Size, Lands, Has, Sits, Op, Op16, PatchBreaks, PatchFits, Back, BackFits, IterHead, IterStep, IterTail;
    GenIter(cond, incr, body, live, depth, at, k, loop);
    InnerIter(cond, incr, body, live, depth, at, k, loop);
    var c := GenOpt(cond, live, k);
    var i := GenOpt(incr, live, k + |c.consts|);
    var sh := IterShape(cond.Some?, incr.Some?, Size(c.code), Size(i.code), at);
    var k2, inner := k + |c.consts| + |i.consts|, Loop(sh.Start(), depth, |live|);
    var b := GenStmt(body, live, depth, sh.AtBody(), k2, inner);
    IterQuiet(sh, c, i, Tidied(b));
    QuietInPlace(p, at, k, IterOut(sh, c, i, Tidied(b)), brk);
    IterSits(p, k, sh, c, i, Tidied(b));
    assert Spot(sh.Start(), |live|) in Inner(IterLoop(cond, incr, body), live, depth, at, k, loop);
    var end := sh.AtBody() + Size(b.code) + 3 + if sh.hasCond then 1 else 0;
    StmtForced(p, m, body, live, depth, sh.AtBody(), k2, inner, end);
  }

  lemma {:induction false} UsingForced(p: Program, m: map<nat, nat>, e: Expr, cases: Cases, live: seq<Local>, depth: nat, at: nat, k: nat,
      loop: Loop, brk: int)
    requires OnPaths(p, m) && LoopLands(loop, brk, m) && AllLand(Inner(Using(e, cases), live, depth, at, k, loop), m)
    requires Placed(p, at, k, GenStmt(Using(e, cases), live, depth, at, k, loop), brk)
    ensures GenStmt(Using(e, cases), live, depth, at, k, loop).tidy
    decreases Using(e, cases), 0
  {
    hide GenStmt, GenExpr, GenCases, OnPaths, InPlace, Inner, CaseMarks, LoopLands, Size, Lands, Has, Sits, Op, Op16;
    GenUsing(e, cases, live, depth, at, k, loop);
    InnerUsing(e, cases, live, depth, at, k, loop);
    var a := GenExpr(e, live, k);
    var base := at + Size(a.code) + 3;
    var c := GenCases(cases, live, depth, base, base, k + |a.consts|, loop);
    UsingInPlace(p, at, k, a, c.(tidy := true), brk);
    CasesForced(p, m, cases, live, depth, base, base, k + |a.consts|, loop, brk);
  }

  lemma {:induction false} CasesForced(p: Program, m: map<nat, nat>, cases: Cases, live: seq<Local>, depth: nat, at: nat, base: nat, k: nat,
      loop: Loop, brk: int)
    requires base <= at && OnPaths(p, m) && LoopLands(loop, brk, m) && AllLand(CaseMarks(cases, live, depth, at, base, k, loop), m)
    requires Placed(p, at, k, PlainCases(GenCases(cases, live, depth, at, base, k, loop)), brk)
    ensures GenCases(cases, live, depth, at, base, k, loop).tidy
    decreases cases
  {
    hide GenStmt, OnPaths, InPlace, Marks, LoopLands, Size, Lands, Has, Join, Op16, LabelTable;
    match cases
    case NoCase =>
    case Default(body) => StmtForced(p, m, body, live, depth, at, k, loop, brk);
    case When(labels, body, rest) =>
      CasesUnfold(cases, live, depth, at, base, k, loop);
      var b := GenStmt(body, live, depth, at, k, loop);
      var at1 := at + Size(b.code) + 3;
      var r := PlainCases(GenCases(rest, live, depth, at1, base, k + |b.consts|, loop));
      WhenInPlace(p, at, k, Tidied(b), Tidied(r), LNil !in labels && Size(r.code) <= MAX_OPERAND, brk);
      StmtForced(p, m, body, live, depth, at, k, loop, brk);
      CasesForced(p, m, rest, live, depth, at1, base, k + |b.consts|, loop, brk);
  }

  lemma {:induction false} BlockForced(p: Program, m: map<nat, nat>, ds: Decls, live: seq<Local>, depth: nat, at: nat, k: nat,
      loop: Loop, brk: int)
    requires OnPaths(p, m) && LoopLands(loop, brk, m) && AllLand(Inner(Block(ds), live, depth, at, k, loop), m)
    requires Placed(p, at, k, GenStmt(Block(ds), live, depth, at, k, loop), brk)
    ensures GenStmt(Block(ds), live, depth, at, k, loop).tidy
    decreases Block(ds), 0
  {
    hide GenStmt, GenDecls, OnPaths, InPlace, Inner, DeclMarks, LoopLands, Size, Lands, Has, Join, Pops, Deeper;
    GenBlock(ds, live, depth, at, k, loop);
    InnerBlock(ds, live, depth, at, k, loop);
    var a := GenDecls(ds, live, depth + 1, at, k, loop);
    BlockInPlace(p, at, k, Tidied(Plain(a)), Deeper(a.locals, depth), brk);
    DeclsForced(p, m, ds, live, depth + 1, at, k, loop, brk);
  }

  lemma {:induction false} DeclsForced(p: Program, m: map<nat, nat>, ds: Decls, live: seq<Local>, depth: nat, at: nat, k: nat,
      loop: Loop, brk: int)
    requires OnPaths(p, m) && LoopLands(loop, brk, m) && AllLand(DeclMarks(ds, live, depth, at, k, loop), m)
    requires Placed(p, at, k, Plain(GenDecls(ds, live, depth, at, k, loop)), brk)
    ensures GenDecls(ds, live, depth, at, k, loop).tidy
    decreases ds
  {
    hide GenStmt, GenDecls, OnPaths, InPlace, Marks, LoopLands, Size, Lands, Has, Join, Clashes, InitOut;
    match ds
    case Done => GenDone(live, depth, at, k, loop);
    case Declare(x, init, rest) =>
      GenDeclared(x, init, rest, live, depth, at, k, loop);
      var a := InitOut(x, init, live, k);
      var live', at1, k1 := live + [Local(x, depth)], at + Size(a.code), k + |a.consts|;
      var b := GenDecls(rest, live', depth, at1, k1, loop);
      InitTidy(x, init, live, k);
      DeclareInPlace(p, at, k, a, Tidied(Plain(b)), brk, !Clashes(live, depth, x) && |live| < MAX_LOCALS);
      DeclsForced(p, m, rest, live', depth, at1, k1, loop, brk);
    case Then(s, rest) =>
      GenThen(s, rest, live, depth, at, k, loop);
      var a := GenStmt(s, live, depth, at, k, loop);
      var at1, k1 := at + Size(a.code), k + |a.consts|;
      SeqInPlace(p, at, k, Tidied(a), Tidied(Plain(GenDecls(rest, live, depth, at1, k1, loop))), brk);
      StmtForced(p, m, s, live, depth, at, k, loop, brk);
      DeclsForced(p, m, rest, live, depth, at1, k1, loop, brk);
  }

  lemma {:induction false} BalancedIsTidy(f: Function, m: map<nat, nat>)
    requires GenFunction(f).ok && Balanced(f, m)
    ensures GenFunction(f).tidy
  {
    hide GenDecls, Has, ConstsAt, Size, PatchBreaks, Encode, InPlace, DistinctNames, Op, DeclMarks, Starts, Closed, Join;
    var p, live := Compiled(f), ParamLocals(f.params);
    var b := GenDecls(f.body, live, 1, 0, 0, NO_LOOP);
    CompiledSits(f);
    DeclsShape(f.body, live, 1, 0, 0, NO_LOOP);
    QuietIsInPlace(p, 0, 0, Tidied(Plain(b)));
    DeclsForced(p, m, f.body, live, 1, 0, 0, NO_LOOP, -1);
  }

  /** A function without compile errors has static stack heights, one value per local at every
      statement boundary, if and only if its `break` and `continue` statements are neat. */
  lemma {:induction false} BalancedIff(f: Function)
    requires GenFunction(f).ok
    ensures (exists m :: Balanced(f, m)) <==> NeatDecls(f.body, |f.params|, 0)
  {
    hide Balanced, GenFunction, NeatDecls;
    AcceptedIff(f);
    if m :| Balanced(f, m) {
      BalancedIsTidy(f, m);
    }
    if NeatDecls(f.body, |f.params|, 0) {
      var m := HeightsExist(f);
    }
  }

  // ----- `continue` in a `while` loop pops the parameters -----

  /** `(x) { while true { continue } }`, with the loop body not in braces. */
  function Spinning(x: string): Function {
    Function([x], Then(While(Lit(LTrue), Continue), Done))
  }

  /** What the machine finds: the test at byte 0, the pop of the parameter at byte 5. */
  ghost predicate SpinningCode(p: Program) {
    && Has(p, 0, Op(OP_TRUE)) && Has(p, 1, Op16(OP_JUMP_IF_FALSE, 8)) && Has(p, 4, Op(OP_POP))
    && Has(p, 5, Op(OP_POP)) && Has(p, 6, Op16(OP_LOOP, 9))
  }

  lemma {:induction false} SpinningLocals(x: string)
    ensures ParamLocals([x]) == [Local("", 0), Local(x, 1)] && Deeper(ParamLocals([x]), 0) == 1
  {
    var live := ParamLocals([x]);
    assert live == [Local("", 0), Local(x, 1)];
    assert live[..1] == [Local("", 0)];
  }

  lemma {:induction false} SpinningGen(x: string)
    ensures var live := ParamLocals([x]); var b := Out(Join(Pops(1), Back(6, 0)), [], true, false);
            && GenStmt(Continue, live, 1, 5, 0, Loop(0, 0, 2)) == b
            && GenFunction(Spinning(x)).ok && !GenFunction(Spinning(x)).tidy
            && GenDecls(Spinning(x).body, live, 1, 0, 0, NO_LOOP).code
               == Join(WhileOut(Out(Op(OP_TRUE), [], true, true), b, 0).code, Nop)
  {
    hide GenStmt, GenExpr, GenDecls, WhileOut, Pops, Op, Back, Join, Size, ParamLocals;
    SpinningBody(x);
    var live := ParamLocals([x]);
    var a, b := Out(Op(OP_TRUE), [], true, true), Out(Join(Pops(1), Back(6, 0)), [], true, false);
    var w := WhileOut(a, b, 0);
    SpinningLoop(a, b);
    GenOfLiteral(LTrue, live, 0);
    GenWhile(Lit(LTrue), Continue, live, 1, 0, 0, NO_LOOP);
    GenThen(While(Lit(LTrue), Continue), Done, live, 1, 0, 0, NO_LOOP);
    GenDone(live, 1, Size(w.code), |w.consts|, NO_LOOP);
  }

  lemma {:induction false} SpinningBody(x: string)
    ensures var live := ParamLocals([x]);
            && |live| == 2 && DistinctNames([x]) && Size(Op(OP_TRUE)) == 1
            && GenStmt(Continue, live, 1, 5, 0, Loop(0, 0, 2)) == Out(Join(Pops(1), Back(6, 0)), [], true, false)
  {
    hide GenStmt, Pops, Deeper, Back, Join;
    SpinningLocals(x);
    GenContinue(ParamLocals([x]), 1, 5, 0, Loop(0, 0, 2));
  }

  lemma {:induction false} SpinningLoop(a: Out, b: Out)
    requires a == Out(Op(OP_TRUE), [], true, true) && b == Out(Join(Pops(1), Back(6, 0)), [], true, false)
    ensures var w := WhileOut(a, b, 0); w.ok && !w.tidy && w.consts == []
  {
    hide Pops, Back, PatchBreaks, PatchFits, Op16, Size;
    TrueSize();
    PopsSize(1);
    BackQuiet(6, 0);
    PatchLeavesAlone(b.code, 5, 13);
  }

  lemma {:induction false} SpinningSits(x: string)
    ensures SpinningCode(Compiled(Spinning(x)))
  {
    hide GenDecls, GenFunction, Has, PatchBreaks, PatchFits, WhileOut, Short, ConstsAt, Compiled;
    SpinningGen(x);
    var p := Compiled(Spinning(x));
    var a, b := Out(Op(OP_TRUE), [], true, true), Out(Join(Pops(1), Back(6, 0)), [], true, true);
    CompiledSits(Spinning(x));
    LoopInside(p, a, b);
    WhileSits(p, 0, 0, a, b);
    QuietInPlace(p, 5, 0, b, 13);
    HasCat(p, 5, Pops(1), Back(6, 0));
    HasCat(p, 5, Op(OP_POP), Pops(0));
  }

  lemma {:induction false} TrueSize()
    ensures Size(Op(OP_TRUE)) == 1
  {}

  lemma {:induction false} LoopInside(p: Program, a: Out, b: Out)
    requires a == Out(Op(OP_TRUE), [], true, true) && b == Out(Join(Pops(1), Back(6, 0)), [], true, true)
    requires Has(p, 0, Join(WhileOut(a, b.(tidy := false), 0).code, Nop))
    ensures Sits(p, 0, 0, WhileOut(a, b, 0)) && Size(a.code) == 1 && Size(b.code) == 4 && NoBreaks(b.code)
  {
    hide Has, PatchBreaks, PatchFits, Pops, Back, Op16, Size;
    TrueSize();
    PopsSize(1);
    BackQuiet(6, 0);
    HasCat(p, 0, WhileOut(a, b, 0).code, Nop);
    PatchLeavesAlone(b.code, 5, 13);
  }

  /** Once round the loop: whatever is on top of the stack is gone. */
  lemma {:induction false} SpinningLap(w: World, p: Program, s: State)
    requires SpinningCode(p) && s.Running? && s.ip == 0
    ensures |s.stack| > 0 ==> Steps(w, p, s, 5) == s.(stack := Drop(s.stack, 1))
    ensures |s.stack| == 0 ==> Steps(w, p, s, 4) == Stuck
  {
    hide Machine.Step, Has, Short;
    var s1 := s.(ip := 1, stack := s.stack + [Bool(true)]);
    var s2, s3 := s1.(ip := 4), s.(ip := 5);
    StepPlain(w, p, s, OP_TRUE);
    StepArg(w, p, s1, OP_JUMP_IF_FALSE, 8);
    StepPlain(w, p, s2, OP_POP);
    assert Drop(s2.stack, 1) == s.stack;
    StepPlain(w, p, s3, OP_POP);
    StepsAdd(w, p, s, 1, 1);
    StepsAdd(w, p, s, 2, 1);
    StepsAdd(w, p, s, 3, 1);
    if |s.stack| > 0 {
      StepArg(w, p, s3.(ip := 6, stack := Drop(s.stack, 1)), OP_LOOP, 9);
      StepsAdd(w, p, s, 4, 1);
    }
  }

  lemma {:induction false} SpinningNeverEnds(w: World, fuel: nat, st: Store)
    ensures Exec(w, fuel, While(Lit(LTrue), Continue), st).Timeout?
    decreases fuel
  {
    if fuel > 0 {
      assert Exec(w, fuel, Continue, st) == Continued(st);
      SpinningNeverEnds(w, fuel - 1, st);
    }
  }

  /** The source never ends; the machine pops the argument, then the callee, and then reads below
      the stack. */
  lemma {:induction false} ContinueLeaks(w: World, x: string, callee: Value, arg: Value, globals: map<string, Value>, fuel: nat)
    ensures GenFunction(Spinning(x)).ok && !NeatDecls(Spinning(x).body, 1, 0)
    ensures Call(w, fuel, Spinning(x), callee, [arg], globals).OutOfFuel?
    ensures var s := Start(callee, [arg], globals); var p := Compiled(Spinning(x));
            && Steps(w, p, s, 5) == s.(stack := [callee]) && Steps(w, p, s, 10) == s.(stack := [])
            && Steps(w, p, s, 14) == Stuck
  {
    hide GenFunction, SpinningCode, Steps, Call, Compiled, NeatDecls;
    SpinningGen(x);
    SpinningSits(x);
    SpinningUnneat(x);
    SpinningRuns(w, Compiled(Spinning(x)), Start(callee, [arg], globals), callee, arg);
    SpinningDiverges(w, x, callee, arg, globals, fuel);
  }

  lemma {:induction false} SpinningDiverges(w: World, x: string, callee: Value, arg: Value, globals: map<string, Value>, fuel: nat)
    ensures Call(w, fuel, Spinning(x), callee, [arg], globals).OutOfFuel?
  {
    hide Exec, ExecDecls;
    SpinningNeverEnds(w, fuel, Entry(Spinning(x), callee, [arg], globals));
    SpinningFuel(w, fuel, Spinning(x), Entry(Spinning(x), callee, [arg], globals));
  }

  lemma {:induction false} SpinningUnneat(x: string)
    ensures !NeatDecls(Spinning(x).body, 1, 0)
  {
    assert !Neat(Continue, 1, 0);
  }

  lemma {:induction false} SpinningRuns(w: World, p: Program, s: State, callee: Value, arg: Value)
    requires SpinningCode(p) && s.Running? && s.ip == 0 && s.stack == [callee] + [arg]
    ensures Steps(w, p, s, 5) == s.(stack := [callee]) && Steps(w, p, s, 10) == s.(stack := []) && Steps(w, p, s, 14) == Stuck
  {
    hide SpinningCode, Machine.Step;
    assert Drop([callee] + [arg], 1) == [callee] && Drop([callee], 1) == [];
    SpinningLap(w, p, s);
    SpinningLap(w, p, s.(stack := [callee]));
    SpinningLap(w, p, s.(stack := []));
    StepsAdd(w, p, s, 5, 5);
    StepsAdd(w, p, s, 10, 4);
  }

  lemma {:induction false} SpinningFuel(w: World, fuel: nat, f: Function, st: Store)
    requires f.body == Then(While(Lit(LTrue), Continue), Done) && Exec(w, fuel, While(Lit(LTrue), Continue), st).Timeout?
    ensures ExecDecls(w, fuel, f.body, st).Timeout?
  {
    hide Exec;
  }
}
