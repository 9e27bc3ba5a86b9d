/** Which `break` and `continue` statements are safe. Neither restores the stack in general:
    `break` discards no locals, and `continue` discards those declared since the innermost
    `iter` scope, because `while` and `do` do not record a scope of their own. */
module Tidiness {
  import opened Basics
  import opened Values
  import opened Bytecode
  import opened Syntax
  import opened Codegen
  import opened CompilerCorrectness
  import opened Machine
  import opened Semantics

  /** Jumps out of loop bodies in `s` find the stack they need, when `before` locals were live
      at the innermost loop beyond those of the innermost `iter` scope around it, and `inBody`
      locals have been declared since that loop began. */
  predicate Neat(s: Stmt, before: nat, inBody: nat) {
    match s
    case Seq(a, b) => Neat(a, before, inBody) && Neat(b, before, inBody)
    case Block(ds) => NeatDecls(ds, before, inBody)
    case If(_, t, f) => Neat(t, before, inBody) && Neat(f, before, inBody)
    case While(_, body) => Neat(body, before + inBody, 0)
    case DoWhile(body, _) => Neat(body, before + inBody, 0)
    case IterLoop(_, _, body) => Neat(body, 0, 0)
    case Using(_, cases) => NeatCases(cases, before, inBody)
    case Continue => before == 0
    case Break => inBody == 0
    case _ => true
  }

  predicate NeatDecls(ds: Decls, before: nat, inBody: nat) {
    match ds
    case Done => true
    case Declare(_, _, rest) => NeatDecls(rest, before, inBody + 1)
    case Then(s, rest) => Neat(s, before, inBody) && NeatDecls(rest, before, inBody)
  }

  predicate NeatCases(cases: Cases, before: nat, inBody: nat) {
    match cases
    case NoCase => true
    case Default(body) => Neat(body, before, inBody)
    case When(_, body, rest) => Neat(body, before, inBody) && NeatCases(rest, before, inBody)
  }

  /** What the two counts stand for in the compiler's tables. */
  ghost predicate Counts(live: seq<Local>, depth: nat, loop: Loop, before: nat, inBody: nat) {
    && live != [] && live[|live| - 1].depth <= depth && loop.depth <= depth
    && Deeper(live, loop.depth) == before + inBody
    && (loop.start != -1 ==> |live| == loop.locals + inBody)
  }

  ghost predicate Agree(ok: bool, tidy: bool, neat: bool) {
    ok ==> (tidy <==> neat)
  }

  lemma {:induction false} StmtTidy(s: Stmt, live: seq<Local>, depth: nat, at: nat, k: nat, loop: Loop, before: nat, inBody: nat)
    requires Counts(live, depth, loop, before, inBody)
    ensures var o := GenStmt(s, live, depth, at, k, loop); Agree(o.ok, o.tidy, Neat(s, before, inBody))
    decreases s, 1
  {
    hide GenStmt, Neat, NeatDecls, NeatCases, Deeper;
    match s
    case Seq(_, _) => SeqTidy(s, live, depth, at, k, loop, before, inBody);
    case Block(ds) =>
      DeclsTidy(ds, live, depth + 1, at, k, loop, before, inBody);
      BlockParts(ds, live, depth, at, k, loop, before, inBody);
    case If(_, _, _) => IfTidy(s, live, depth, at, k, loop, before, inBody);
    case While(_, _) => LoopTidy(s, live, depth, at, k, loop, before, inBody);
    case DoWhile(_, _) => LoopTidy(s, live, depth, at, k, loop, before, inBody);
    case IterLoop(_, _, _) => IterTidy(s, live, depth, at, k, loop, before, inBody);
    case Using(_, _) => UsingTidy(s, live, depth, at, k, loop, before, inBody);
    case _ => PlainTidy(s, live, depth, at, k, loop, before, inBody);
  }

  lemma {:induction false} PlainTidy(s: Stmt, live: seq<Local>, depth: nat, at: nat, k: nat, loop: Loop, before: nat, inBody: nat)
    requires Counts(live, depth, loop, before, inBody)
    requires s.Skip? || s.Eval? || s.Echo? || s.Continue? || s.Break? || s.Return?
    ensures var o := GenStmt(s, live, depth, at, k, loop); Agree(o.ok, o.tidy, Neat(s, before, inBody))
  {
    hide GenExpr, PatchBreaks, PatchFits, Size, Branch, Pops, Deeper, GenOpt, Op, Op16, Join, Back, BackFits, LabelTable, Clashes, GenDecls, GenCases;
  }

  lemma {:induction false} BlockParts(ds: Decls, live: seq<Local>, depth: nat, at: nat, k: nat, loop: Loop, before: nat, inBody: nat)
    ensures var a := GenDecls(ds, live, depth + 1, at, k, loop); var o := GenStmt(Block(ds), live, depth, at, k, loop);
            o.ok == a.ok && o.tidy == a.tidy && Neat(Block(ds), before, inBody) == NeatDecls(ds, before, inBody)
  {
    hide GenExpr, PatchBreaks, PatchFits, Size, Branch, Pops, Deeper, GenOpt, Op, Op16, Join, Back, BackFits, LabelTable, Clashes, GenDecls, GenCases;
  }

  lemma {:induction false} SeqTidy(s: Stmt, live: seq<Local>, depth: nat, at: nat, k: nat, loop: Loop, before: nat, inBody: nat)
    requires s.Seq? && Counts(live, depth, loop, before, inBody)
    ensures var o := GenStmt(s, live, depth, at, k, loop); Agree(o.ok, o.tidy, Neat(s, before, inBody))
    decreases s, 0
  {
    hide GenStmt, Size, Join, Counts, NeatDecls, NeatCases;
    GenSeq(s.first, s.second, live, depth, at, k, loop);
    var x := GenStmt(s.first, live, depth, at, k, loop);
    StmtTidy(s.first, live, depth, at, k, loop, before, inBody);
    StmtTidy(s.second, live, depth, at + Size(x.code), k + |x.consts|, loop, before, inBody);
  }

  lemma {:induction false} IfTidy(s: Stmt, live: seq<Local>, depth: nat, at: nat, k: nat, loop: Loop, before: nat, inBody: nat)
    requires s.If? && Counts(live, depth, loop, before, inBody)
    ensures var o := GenStmt(s, live, depth, at, k, loop); Agree(o.ok, o.tidy, Neat(s, before, inBody))
    decreases s, 0
  {
    hide GenExpr, GenStmt, Size, Branch, BranchFits, Counts, NeatDecls, NeatCases;
    GenIf(s.e, s.thn, s.els, live, depth, at, k, loop);
    var a := GenExpr(s.e, live, k);
    var b := GenStmt(s.thn, live, depth, at + Size(a.code) + 4, k + |a.consts|, loop);
    StmtTidy(s.thn, live, depth, at + Size(a.code) + 4, k + |a.consts|, loop, before, inBody);
    StmtTidy(s.els, live, depth, at + Size(a.code) + 4 + Size(b.code) + 4, k + |a.consts| + |b.consts|, loop, before, inBody);
  }

  lemma {:induction false} LoopTidy(s: Stmt, live: seq<Local>, depth: nat, at: nat, k: nat, loop: Loop, before: nat, inBody: nat)
    requires (s.While? || s.DoWhile?) && Counts(live, depth, loop, before, inBody)
    ensures var o := GenStmt(s, live, depth, at, k, loop); Agree(o.ok, o.tidy, Neat(s, before, inBody))
    decreases s, 0
  {
    hide GenExpr, GenStmt, Size, PatchBreaks, PatchFits, Join, Op, Op16, Back, BackFits, Deeper, NeatDecls, NeatCases;
    var inner := Loop(at, loop.depth, |live|);
    if s.While? {
      GenWhile(s.e, s.loop, live, depth, at, k, loop);
      var a := GenExpr(s.e, live, k);
      StmtTidy(s.loop, live, depth, at + Size(a.code) + 4, k + |a.consts|, inner, before + inBody, 0);
    } else {
      GenDo(s.loop, s.e, live, depth, at, k, loop);
      StmtTidy(s.loop, live, depth, at, k, inner, before + inBody, 0);
    }
  }

  lemma {:induction false} IterTidy(s: Stmt, live: seq<Local>, depth: nat, at: nat, k: nat, loop: Loop, before: nat, inBody: nat)
    requires s.IterLoop? && Counts(live, depth, loop, before, inBody)
    ensures var o := GenStmt(s, live, depth, at, k, loop); Agree(o.ok, o.tidy, Neat(s, before, inBody))
    decreases s, 0
  {
    hide GenOpt, GenStmt, Size, PatchBreaks, PatchFits, IterHead, IterStep, IterTail, BackFits, Deeper, NeatDecls, NeatCases;
    GenIter(s.cond, s.incr, s.loop, live, depth, at, k, loop);
    var a := GenOpt(s.cond, live, k);
    var b := GenOpt(s.incr, live, k + |a.consts|);
    var sh := IterShape(s.cond.Some?, s.incr.Some?, Size(a.code), Size(b.code), at);
    NoneDeeper(live, depth);
    StmtTidy(s.loop, live, depth, sh.AtBody(), k + |a.consts| + |b.consts|, Loop(sh.Start(), depth, |live|), 0, 0);
  }

  lemma {:induction false} UsingTidy(s: Stmt, live: seq<Local>, depth: nat, at: nat, k: nat, loop: Loop, before: nat, inBody: nat)
    requires s.Using? && Counts(live, depth, loop, before, inBody)
    ensures var o := GenStmt(s, live, depth, at, k, loop); Agree(o.ok, o.tidy, Neat(s, before, inBody))
    decreases s, 0
  {
    hide GenExpr, GenStmt, GenCases, Size, Join, Op16, Counts, NeatDecls, NeatCases;
    GenUsing(s.e, s.cases, live, depth, at, k, loop);
    var a := GenExpr(s.e, live, k);
    var base := at + Size(a.code) + 3;
    CasesTidy(s.cases, live, depth, base, base, k + |a.consts|, loop, before, inBody);
  }

  lemma {:induction false} NoneDeeper(live: seq<Local>, depth: nat)
    requires live != [] && live[|live| - 1].depth <= depth
    ensures Deeper(live, depth) == 0
  {}

  lemma {:induction false} OneDeeper(live: seq<Local>, x: string, depth: nat, d: int)
    requires d < depth
    ensures Deeper(live + [Local(x, depth)], d) == 1 + Deeper(live, d)
  {
    assert (live + [Local(x, depth)])[..|live|] == live;
  }

  lemma {:induction false} DeclsTidy(ds: Decls, live: seq<Local>, depth: nat, at: nat, k: nat, loop: Loop, before: nat, inBody: nat)
    requires Counts(live, depth, loop, before, inBody) && loop.depth < depth
    ensures var o := GenDecls(ds, live, depth, at, k, loop); Agree(o.ok, o.tidy, NeatDecls(ds, before, inBody))
    decreases ds, 1
  {
    hide GenExpr, GenStmt, GenDecls, Neat, NeatDecls, Size, Deeper, Op;
    match ds
    case Done => DoneParts(live, depth, at, k, loop, before, inBody);
    case Declare(x, init, rest) =>
      var a := if init.None? then Out(Op(OP_NIL), [], true, true) else GenExpr(init.value, live + [Local(x, -1)], k);
      OneDeeper(live, x, depth, loop.depth);
      DeclsTidy(rest, live + [Local(x, depth)], depth, at + Size(a.code), k + |a.consts|, loop, before, inBody + 1);
      DeclareParts(x, init, rest, live, depth, at, k, loop, before, inBody);
    case Then(s, rest) =>
      var a := GenStmt(s, live, depth, at, k, loop);
      StmtTidy(s, live, depth, at, k, loop, before, inBody);
      DeclsTidy(rest, live, depth, at + Size(a.code), k + |a.consts|, loop, before, inBody);
      ThenParts(s, rest, live, depth, at, k, loop, before, inBody);
  }

  lemma {:induction false} DoneParts(live: seq<Local>, depth: nat, at: nat, k: nat, loop: Loop, before: nat, inBody: nat)
    ensures GenDecls(Done, live, depth, at, k, loop).tidy && NeatDecls(Done, before, inBody)
  {}

  lemma {:induction false} DeclareParts(x: string, init: Option<Expr>, rest: Decls, live: seq<Local>, depth: nat, at: nat, k: nat,
                                        loop: Loop, before: nat, inBody: nat)
    ensures var a := if init.None? then Out(Op(OP_NIL), [], true, true) else GenExpr(init.value, live + [Local(x, -1)], k);
            var b := GenDecls(rest, live + [Local(x, depth)], depth, at + Size(a.code), k + |a.consts|, loop);
            var ds := Declare(x, init, rest); var o := GenDecls(ds, live, depth, at, k, loop);
            (o.ok ==> b.ok) && o.tidy == b.tidy && NeatDecls(ds, before, inBody) == NeatDecls(rest, before, inBody + 1)
  {
    hide GenExpr, GenStmt, Size, Clashes, Join, Op;
  }

  lemma {:induction false} ThenParts(s: Stmt, rest: Decls, live: seq<Local>, depth: nat, at: nat, k: nat, loop: Loop, before: nat, inBody: nat)
    ensures var a := GenStmt(s, live, depth, at, k, loop);
            var b := GenDecls(rest, live, depth, at + Size(a.code), k + |a.consts|, loop);
            var o := GenDecls(Then(s, rest), live, depth, at, k, loop);
            && o.ok == (a.ok && b.ok) && o.tidy == (a.tidy && b.tidy)
            && NeatDecls(Then(s, rest), before, inBody) == (Neat(s, before, inBody) && NeatDecls(rest, before, inBody))
  {
    hide GenExpr, GenStmt, Size, Clashes, Join, Op, Neat;
  }

  lemma {:induction false} CasesTidy(cases: Cases, live: seq<Local>, depth: nat, at: nat, base: nat, k: nat, loop: Loop, before: nat, inBody: nat)
    requires base <= at && Counts(live, depth, loop, before, inBody)
    ensures var o := GenCases(cases, live, depth, at, base, k, loop); Agree(o.ok, o.tidy, NeatCases(cases, before, inBody))
    decreases cases, 1
  {
    hide GenStmt, Size, LabelTable, Join, Op16, Deeper, Neat;
    match cases
    case NoCase =>
    case Default(body) => StmtTidy(body, live, depth, at, k, loop, before, inBody);
    case When(labels, body, rest) =>
      var b := GenStmt(body, live, depth, at, k, loop);
      StmtTidy(body, live, depth, at, k, loop, before, inBody);
      CasesTidy(rest, live, depth, at + Size(b.code) + 3, base, k + |b.consts|, loop, before, inBody);
  }

  lemma {:induction false} ParamsDeeper(params: seq<string>)
    ensures Deeper(ParamLocals(params), 0) == |params|
    decreases |params|
  {
    var live := ParamLocals(params);
    if params == [] {
      assert live[0] == Local("", 0);
    } else {
      var front := params[..|params| - 1];
      assert live[..|live| - 1] == ParamLocals(front);
      assert live[|live| - 1] == Local(params[|params| - 1], 1);
      ParamsDeeper(front);
    }
  }

  /** A function without compile errors is safe exactly when its source is neat, its parameters
      counting as locals. */
  lemma {:induction false} AcceptedIff(f: Function)
    ensures Accepted(f) <==> GenFunction(f).ok && NeatDecls(f.body, |f.params|, 0)
  {
    hide GenDecls, Join, Op, Deeper;
    var live := ParamLocals(f.params);
    ParamsDeeper(f.params);
    assert live[|live| - 1].depth <= 1;
    DeclsTidy(f.body, live, 1, 0, 0, NO_LOOP, |f.params|, 0);
  }

  // ----- a function that is not neat -----

  const ESCAPE := Block(Declare("a", Some(Lit(LNumber(1.0))), Then(Break, Done)))
  const AFTER := Declare("b", Some(Lit(LNumber(2.0))), Then(Return(Some(Var("b"))), Done))
  const LEAKY := Function([], Then(While(Lit(LTrue), ESCAPE), AFTER))

  const LEAKY_CODE: seq<byte> :=
    [OP_TRUE, OP_JUMP_IF_FALSE, 0, 11, OP_POP, OP_CONSTANT, 0, 0, OP_JUMP, 0, 5, OP_POP, OP_LOOP, 0, 15, OP_POP,
     OP_CONSTANT, 0, 1, OP_GET_LOCAL, 0, 1, OP_RETURN, OP_EMPTY, OP_RETURN]

  const CALLEE := [Local("", 0)]

  lemma {:induction false} EscapeLocals(live: seq<Local>)
    requires live == CALLEE + [Local("a", 2)]
    ensures MayDeclare(CALLEE, 2, "a") && Deeper(live, 1) == 1
  {
    assert live[..1] == CALLEE;
  }

  lemma {:induction false} EscapeBody(live: seq<Local>, loop: Loop)
    requires live == CALLEE + [Local("a", 2)] && loop == Loop(0, 0, 1)
    ensures GenDecls(Then(Break, Done), live, 2, 8, 1, loop) == DeclsOut(Join(One(OP_BREAK_PL, [255, 255]), Nop), [], true, false, live)
  {
    hide GenStmt, GenDecls;
    GenBreak(live, 2, 8, 1, loop);
    GenDone(live, 2, 11, 1, loop);
    GenThen(Break, Done, live, 2, 8, 1, loop);
  }

  lemma {:induction false} EscapeCompiles()
    ensures var o := GenStmt(ESCAPE, CALLEE, 1, 5, 0, Loop(0, 0, 1));
            && o.code == Join(Join(Op16(OP_CONSTANT, 0), Join(One(OP_BREAK_PL, [255, 255]), Nop)), Pops(1))
            && o.consts == [Val(Number(1.0))] && o.ok && !o.tidy
  {
    hide GenStmt, GenDecls, GenExpr, MayDeclare, Deeper, Size;
    var live, loop := CALLEE + [Local("a", 2)], Loop(0, 0, 1);
    EscapeLocals(live);
    EscapeBody(live, loop);
    GenOfLiteral(LNumber(1.0), CALLEE + [Local("a", -1)], 0);
    GenDeclared("a", Some(Lit(LNumber(1.0))), Then(Break, Done), CALLEE, 2, 5, 0, loop);
    GenBlock(Declare("a", Some(Lit(LNumber(1.0))), Then(Break, Done)), CALLEE, 1, 5, 0, loop);
    assert [Val(Number(1.0))] + [] == [Val(Number(1.0))];
  }

  lemma {:induction false} AfterCompiles()
    ensures var o := GenDecls(AFTER, CALLEE, 1, 16, 1, NO_LOOP);
            && o.code == Join(Op16(OP_CONSTANT, 1), Join(Join(Op16(OP_GET_LOCAL, 1), Op(OP_RETURN)), Nop))
            && o.consts == [Val(Number(2.0))] && o.ok && o.tidy
  {
    hide GenStmt, GenDecls, GenExpr;
    var live := CALLEE + [Local("b", 1)];
    var back := Return(Some(Var("b")));
    GenOfLiteral(LNumber(2.0), CALLEE + [Local("b", -1)], 1);
    ReadsB(live);
    GenDone(live, 1, 23, 2, NO_LOOP);
    GenReturn(Var("b"), live, 1, 19, 2, NO_LOOP);
    GenThen(back, Done, live, 1, 19, 2, NO_LOOP);
    GenDeclared("b", Some(Lit(LNumber(2.0))), Then(back, Done), CALLEE, 1, 16, 1, NO_LOOP);
  }

  lemma {:induction false} ReadsB(live: seq<Local>)
    requires live == CALLEE + [Local("b", 1)]
    ensures GenExpr(Var("b"), live, 2) == Out(Op16(OP_GET_LOCAL, 1), [], true, true)
  {}

  lemma {:induction false} EscapePatched()
    ensures var body := Join(Join(Op16(OP_CONSTANT, 0), Join(One(OP_BREAK_PL, [255, 255]), Nop)), Pops(1));
            && Size(body) == 7 && PatchFits(body, 5, 16)
            && Encode(PatchBreaks(body, 5, 16)) == [OP_CONSTANT, 0, 0, OP_JUMP, 0, 5, OP_POP]
  {
    hide PatchBreaks, PatchFits, Encode;
    var front := Join(Op16(OP_CONSTANT, 0), Join(One(OP_BREAK_PL, [255, 255]), Nop));
    PatchPair(front, Pops(1), 5, 16);
    PatchPair(Op16(OP_CONSTANT, 0), Join(One(OP_BREAK_PL, [255, 255]), Nop), 5, 16);
    PatchPair(One(OP_BREAK_PL, [255, 255]), Nop, 8, 16);
    PatchLeavesAlone(Op16(OP_CONSTANT, 0), 5, 16);
    PatchLeavesAlone(Pops(1), 12, 16);
    PatchLeavesAlone(Pops(1), 11, 16);
    PatchLeavesAlone(Nop, 11, 16);
    PatchOne(8, 16);
    EncodeOp16(OP_CONSTANT, 0);
    EncodeOp16(OP_JUMP, 5);
    EncodePop();
  }

  lemma {:induction false} PatchPair(a: Code, b: Code, at: nat, end: int)
    ensures var p := PatchBreaks(Join(a, b), at, end);
            Encode(p) == Encode(PatchBreaks(a, at, end)) + Encode(PatchBreaks(b, at + Size(a), end))
    ensures PatchFits(Join(a, b), at, end) == (PatchFits(a, at, end) && PatchFits(b, at + Size(a), end))
  {}

  lemma {:induction false} PatchOne(at: nat, end: int)
    ensures PatchBreaks(One(OP_BREAK_PL, [255, 255]), at, end) == Op16(OP_JUMP, end - at - 3)
    ensures PatchFits(One(OP_BREAK_PL, [255, 255]), at, end) == (0 <= end - at - 3 < 65536)
  {}

  lemma {:induction false} EncodePop()
    ensures Encode(Nop) == [] && Encode(Pops(1)) == [OP_POP]
  {
    assert Encode(Pops(0)) == [];
  }

  lemma {:induction false} JumpAndPop(c: Code, op: byte, n: int)
    ensures Encode(Join(c, Join(Op16(op, n), Op(OP_POP)))) == Encode(c) + ([op] + Short(n) + [OP_POP])
  {
    hide Encode, Join, Op, Op16, Short;
    EncodeOp(OP_POP);
    EncodeOp16(op, n);
    EncodeJoin(Op16(op, n), Op(OP_POP));
    EncodeJoin(c, Join(Op16(op, n), Op(OP_POP)));
  }

  lemma {:induction false} WhileEncoded(a: Out, b: Out, at: nat)
    ensures var body := at + Size(a.code) + 4; var end := body + Size(b.code);
            Encode(WhileOut(a, b, at).code) ==
            (Encode(a.code) + ([OP_JUMP_IF_FALSE] + Short(4 + Size(b.code)) + [OP_POP]))
            + (Encode(PatchBreaks(b.code, body, end + 4)) + ([OP_LOOP] + Short(end - at + 3) + [OP_POP]))
  {
    hide Encode, PatchBreaks, PatchFits, Join, Op, Op16, Short;
    var body := at + Size(a.code) + 4;
    var end := body + Size(b.code);
    var patched := PatchBreaks(b.code, body, end + 4);
    JumpAndPop(a.code, OP_JUMP_IF_FALSE, 4 + Size(b.code));
    JumpAndPop(patched, OP_LOOP, end - at + 3);
    EncodeJoin(Join(a.code, Join(Op16(OP_JUMP_IF_FALSE, 4 + Size(b.code)), Op(OP_POP))),
                        Join(patched, Join(Op16(OP_LOOP, end - at + 3), Op(OP_POP))));
  }

  lemma {:induction false} WhileParts(a: Out, b: Out, at: nat)
    ensures var o := WhileOut(a, b, at); var body := at + Size(a.code) + 4; var end := body + Size(b.code);
            && o.consts == a.consts + b.consts && o.tidy == b.tidy
            && o.ok == (a.ok && b.ok && 4 + Size(b.code) <= MAX_OPERAND && end - at + 3 <= MAX_OPERAND
                        && PatchFits(b.code, body, end + 4))
  {
    hide PatchBreaks, PatchFits, Join, Op, Op16, Size;
  }

  lemma {:induction false} LoopCompiles()
    ensures var o := GenStmt(While(Lit(LTrue), ESCAPE), CALLEE, 1, 0, 0, NO_LOOP);
            && Encode(o.code) == LEAKY_CODE[..16] && o.consts == [Val(Number(1.0))] && o.ok && !o.tidy
  {
    hide GenStmt, GenDecls, GenExpr, Encode, PatchBreaks, PatchFits, Pops, WhileOut, Short, Size;
    GenOfLiteral(LTrue, CALLEE, 0);
    var a, b := GenExpr(Lit(LTrue), CALLEE, 0), GenStmt(ESCAPE, CALLEE, 1, 5, 0, Loop(0, 0, 1));
    EscapeCompiles();
    EscapePatched();
    assert a.code == Op(OP_TRUE) && a.consts == [] && a.ok;
    EncodeOp(OP_TRUE);
    GenWhile(Lit(LTrue), ESCAPE, CALLEE, 1, 0, 0, NO_LOOP);
    WhileEncoded(a, b, 0);
    WhileParts(a, b, 0);
    LoopBytes();
  }

  lemma {:induction false} LoopBytes()
    ensures ([OP_TRUE] + ([OP_JUMP_IF_FALSE] + Short(11) + [OP_POP]))
            + ([OP_CONSTANT, 0, 0, OP_JUMP, 0, 5, OP_POP] + ([OP_LOOP] + Short(15) + [OP_POP])) == LEAKY_CODE[..16]
  {
    var head, tail := [OP_JUMP_IF_FALSE] + Short(11) + [OP_POP], [OP_LOOP] + Short(15) + [OP_POP];
    assert head == [OP_JUMP_IF_FALSE, 0, 11, OP_POP] && tail == [OP_LOOP, 0, 15, OP_POP];
  }

  lemma {:induction false} LeakyCompiles()
    ensures Compiled(LEAKY) == Program(LEAKY_CODE, [Val(Number(1.0)), Val(Number(2.0))])
    ensures GenFunction(LEAKY).ok && !Accepted(LEAKY)
  {
    hide GenStmt, GenDecls, Encode;
    var live := ParamLocals([]);
    assert live == CALLEE;
    var loop := GenStmt(While(Lit(LTrue), ESCAPE), CALLEE, 1, 0, 0, NO_LOOP);
    LoopCompiles();
    AfterCompiles();
    GenThen(While(Lit(LTrue), ESCAPE), AFTER, CALLEE, 1, 0, 0, NO_LOOP);
    assert Size(loop.code) == 16 by { assert |Encode(loop.code)| == 16; }
    var get, ret := Op16(OP_GET_LOCAL, 1), Op(OP_RETURN);
    var after := Join(Op16(OP_CONSTANT, 1), Join(Join(get, ret), Nop));
    AfterEncoded();
    var end := Join(Op(OP_EMPTY), Op(OP_RETURN));
    EncodeOp(OP_EMPTY);
    EncodeOp(OP_RETURN);
    EncodeJoin(Op(OP_EMPTY), Op(OP_RETURN));
    EncodeJoin(loop.code, after);
    EncodeJoin(Join(loop.code, after), end);
  }

  lemma {:induction false} AfterEncoded()
    ensures Encode(Join(Op16(OP_CONSTANT, 1), Join(Join(Op16(OP_GET_LOCAL, 1), Op(OP_RETURN)), Nop))) == LEAKY_CODE[16..23]
  {
    assert Encode(Join(Op16(OP_GET_LOCAL, 1), Op(OP_RETURN))) == [OP_GET_LOCAL, 0, 1, OP_RETURN];
  }

  /** Its source returns 2, but the compiled code returns the 1 that `break` left behind. */
  lemma {:induction false} BreakLeaks(w: World, callee: Value, globals: map<string, Value>)
    ensures Steps(w, Compiled(LEAKY), Start(callee, [], globals), 8) == Halted(Number(1.0), globals, [])
    ensures Call(w, 1, LEAKY, callee, [], globals) == Gives(Number(2.0), globals, [])
  {
    LeakyCompiles();
    LeakyRuns(w, callee, globals, 0);
    assert [callee] + [] == [callee];
    LeakyMeans(w, callee, globals);
  }

  const LEAKY_PROGRAM := Program(LEAKY_CODE, [Val(Number(1.0)), Val(Number(2.0))])

  function LeakyState(callee: Value, globals: map<string, Value>, i: nat): State {
    var one, two := Number(1.0), Number(2.0);
    if i == 0 then Running(0, [callee], globals, [])
    else if i == 1 then Running(1, [callee, Bool(true)], globals, [])
    else if i == 2 then Running(4, [callee, Bool(true)], globals, [])
    else if i == 3 then Running(5, [callee], globals, [])
    else if i == 4 then Running(8, [callee, one], globals, [])
    else if i == 5 then Running(16, [callee, one], globals, [])
    else if i == 6 then Running(19, [callee, one, two], globals, [])
    else if i == 7 then Running(22, [callee, one, two, one], globals, [])
    else Halted(one, globals, [])
  }

  lemma {:induction false} LeakyStep(w: World, callee: Value, globals: map<string, Value>, i: nat)
    requires i < 8
    ensures Machine.Step(w, LEAKY_PROGRAM, LeakyState(callee, globals, i)) == LeakyState(callee, globals, i + 1)
  {
    if i < 2 { LeakyTests(w, callee, globals, i); }
    else if i < 4 { LeakyEnters(w, callee, globals, i); }
    else if i < 6 { LeakyLeaves(w, callee, globals, i); }
    else { LeakyReturns(w, callee, globals, i); }
  }

  lemma {:induction false} LeakyTests(w: World, callee: Value, globals: map<string, Value>, i: nat)
    requires i < 2
    ensures Machine.Step(w, LEAKY_PROGRAM, LeakyState(callee, globals, i)) == LeakyState(callee, globals, i + 1)
  {}

  lemma {:induction false} LeakyEnters(w: World, callee: Value, globals: map<string, Value>, i: nat)
    requires 2 <= i < 4
    ensures Machine.Step(w, LEAKY_PROGRAM, LeakyState(callee, globals, i)) == LeakyState(callee, globals, i + 1)
  {}

  /** Out of the loop with the body's local still there. */
  lemma {:induction false} LeakyLeaves(w: World, callee: Value, globals: map<string, Value>, i: nat)
    requires 4 <= i < 6
    ensures Machine.Step(w, LEAKY_PROGRAM, LeakyState(callee, globals, i)) == LeakyState(callee, globals, i + 1)
  {}

  lemma {:induction false} LeakyReturns(w: World, callee: Value, globals: map<string, Value>, i: nat)
    requires 6 <= i < 8
    ensures Machine.Step(w, LEAKY_PROGRAM, LeakyState(callee, globals, i)) == LeakyState(callee, globals, i + 1)
  {}

  lemma {:induction false} LeakyRuns(w: World, callee: Value, globals: map<string, Value>, i: nat)
    requires i <= 8
    ensures Steps(w, LEAKY_PROGRAM, LeakyState(callee, globals, i), 8 - i) == Halted(Number(1.0), globals, [])
    decreases 8 - i
  {
    hide Machine.Step;
    if i < 8 {
      LeakyStep(w, callee, globals, i);
      LeakyRuns(w, callee, globals, i + 1);
    }
  }

  lemma {:induction false} LeakyMeans(w: World, callee: Value, globals: map<string, Value>)
    ensures Call(w, 1, LEAKY, callee, [], globals) == Gives(Number(2.0), globals, [])
  {
    hide Exec;
    var st := Entry(LEAKY, callee, [], globals);
    LoopMeans(w, st);
    ReturnMeans(w, st.(scopes := Bind(st.scopes, "b", Number(2.0))));
  }

  lemma {:induction false} LoopMeans(w: World, st: Store)
    ensures Exec(w, 1, While(Lit(LTrue), ESCAPE), st) == Normal(st)
  {
    var a := Bind(Enter(st).scopes, "a", Number(1.0));
    assert Exec(w, 1, Break, Enter(st).(scopes := a)) == Broke(Enter(st).(scopes := a));
    assert Exec(w, 1, ESCAPE, st) == Broke(Leave(Enter(st).(scopes := a)));
    assert a[..|a| - 1] == st.scopes;
  }

  lemma {:induction false} ReturnMeans(w: World, st: Store)
    requires st.scopes != [] && "b" in st.scopes[|st.scopes| - 1] && st.scopes[|st.scopes| - 1]["b"] == Number(2.0)
    ensures Exec(w, 1, Return(Some(Var("b"))), st) == Returned(Number(2.0), st)
  {}
}
