/** What the single-pass compiler has to produce from each point of the token stream: the code
    of the statement that starts there, and the position after it. */
module Emission {
  import opened Basics
  import opened Values
  import opened Bytecode
  import opened Syntax
  import opened Codegen
  import opened Grammar
  import opened Decoding
  import opened CodeShape
  import opened StmtCorrectness

  /** What has been compiled so far. */
  datatype Blob = Blob(code: seq<byte>, consts: seq<Const>, locals: seq<Local>)

  /** The blob to reach and the position to stop at, or a compile error. */
  type Goal = Parsed<Blob>

  ghost function More(b: Blob, bytes: seq<byte>): Blob { b.(code := b.code + bytes) }

  /** `b` with `o` appended, if `o` is free of errors. */
  ghost function Put(b: Blob, o: Out, pos: nat): (g: Goal)
    ensures g.Some? ==> g.value.1 == pos && g.value.0.locals == b.locals
  {
    if o.ok then Some((Blob(b.code + Encode(o.code), b.consts + o.consts, b.locals), pos)) else None
  }

  ghost function ExprGoal(ts: Tokens, pos: nat, b: Blob): Goal {
    var r := ParseExpr(ts, pos, PREC_ASSIGNMENT);
    if r.None? then None else Put(b, GenExpr(r.value.0, b.locals, |b.consts|), r.value.1)
  }

  ghost function StmtPut(s: Stmt, b: Blob, depth: nat, loop: Loop, pos: nat): (g: Goal)
    ensures g.Some? ==> g.value.1 == pos
  {
    Put(b, GenStmt(s, b.locals, depth, |b.code|, |b.consts|, loop), pos)
  }

  ghost function StmtGoal(ts: Tokens, pos: nat, b: Blob, depth: nat, loop: Loop): Goal {
    var r := ParseStmt(ts, pos);
    if r.None? then None else StmtPut(r.value.0, b, depth, loop, r.value.1)
  }

  ghost function BareGoal(ts: Tokens, pos: nat, b: Blob, depth: nat, loop: Loop): Goal
    requires pos < |ts|
  {
    var r := ParseBare(ts, pos);
    if r.None? then None else StmtPut(r.value.0, b, depth, loop, r.value.1)
  }

  ghost function DeclsPut(ds: Decls, b: Blob, depth: nat, loop: Loop, pos: nat): (g: Goal)
    ensures g.Some? ==> g.value.1 == pos
  {
    var o := GenDecls(ds, b.locals, depth, |b.code|, |b.consts|, loop);
    if o.ok then Some((Blob(b.code + Encode(o.code), b.consts + o.consts, o.locals), pos)) else None
  }

  ghost function DeclsGoal(ts: Tokens, pos: nat, b: Blob, depth: nat, loop: Loop): Goal
    requires pos <= |ts|
  {
    var r := ParseDecls(ts, pos);
    if r.None? then None else DeclsPut(r.value.0, b, depth, loop, r.value.1)
  }

  ghost predicate Within(g: Goal, ts: Tokens, pos: nat) { g.Some? ==> pos <= g.value.1 <= |ts| }

  /** No local is declared deeper than `depth`. */
  ghost predicate Shallow(locals: seq<Local>, depth: nat) {
    forall i :: 0 <= i < |locals| ==> locals[i].depth <= depth
  }

  lemma {:induction false} StmtForm(ts: Tokens, pos: nat, b: Blob, depth: nat, loop: Loop)
    requires pos <= |ts|
    ensures var start := SkipLines(ts, pos); var g := StmtGoal(ts, pos, b, depth, loop);
            if start >= |ts| then g.None? else
            var s := BareGoal(ts, start, b, depth, loop);
            && Within(s, ts, start + 1)
            && g == if s.None? then None else Some((s.value.0, SkipLines(ts, s.value.1)))
  {
    hide ParseBare, SkipLines, GenStmt;
  }

  /** The statement a keyword begins. */
  lemma {:induction false} BareIs(ts: Tokens, pos: nat)
    requires pos < |ts|
    ensures ts[pos].TIf? ==> ParseBare(ts, pos) == ParseIf(ts, pos + 1)
    ensures ts[pos].TDo? ==> ParseBare(ts, pos) == ParseDo(ts, pos + 1)
    ensures ts[pos].TWhile? ==> ParseBare(ts, pos) == ParseWhile(ts, pos + 1)
    ensures ts[pos].TIter? ==> ParseBare(ts, pos) == ParseIter(ts, pos + 1)
    ensures ts[pos].TUsing? ==> ParseBare(ts, pos) == ParseUsing(ts, pos + 1)
    ensures ts[pos].TReturn? ==> ParseBare(ts, pos) == ParseReturn(ts, pos + 1)
    ensures var ds := ParseBlock(ts, pos + 1);
            ts[pos].TLBrace? ==> ParseBare(ts, pos) == if ds.None? then None else Some((Block(ds.value.0), ds.value.1))
  {
    hide ParseIf, ParseDo, ParseWhile, ParseIter, ParseUsing, ParseReturn, ParseBlock, ParseEnded;
  }

  // ----- simple statements -----

  /** Tokens that begin a statement of their own. */
  predicate Keyword(t: Token) {
    t.TEcho? || t.TIf? || t.TDo? || t.TWhile? || t.TIter? || t.TUsing? || t.TContinue? || t.TBreak? || t.TReturn? || t.TLBrace?
  }

  /** An expression, the instruction that consumes its value, and the end of the statement. */
  ghost function Ended(ts: Tokens, pos: nat, b: Blob, op: byte): Goal {
    var x := ExprGoal(ts, pos, b);
    if x.None? then None else
    var end := StatementEnd(ts, x.value.1);
    if end.None? then None else Some((More(x.value.0, [op]), end.value))
  }

  lemma {:induction false} EndedPut(ts: Tokens, pos: nat, b: Blob, op: byte)
    ensures var e := ParseEnded(ts, pos);
            Ended(ts, pos, b, op) ==
            if e.None? then None else Put(b, UnaryOut(GenExpr(e.value.0, b.locals, |b.consts|), Op(op)), e.value.1)
  {
    hide ParseExpr, GenExpr, Encode, Join, Op;
    var e := ParseEnded(ts, pos);
    if e.Some? {
      var a := GenExpr(e.value.0, b.locals, |b.consts|);
      EncodeJoin(a.code, Op(op));
      EncodeOp(op);
      assert b.code + Encode(a.code) + [op] == b.code + (Encode(a.code) + [op]);
    }
  }

  lemma {:induction false} ExpressionForm(ts: Tokens, pos: nat, b: Blob, depth: nat, loop: Loop)
    requires pos < |ts|
    ensures !Keyword(ts[pos]) ==> BareGoal(ts, pos, b, depth, loop) == Ended(ts, pos, b, OP_POP)
    ensures ts[pos].TEcho? ==> BareGoal(ts, pos, b, depth, loop) == Ended(ts, pos + 1, b, OP_ECHO)
  {
    hide ParseEnded, GenStmt, Ended, UnaryOut, Put, GenExpr, Op;
    var at := if ts[pos].TEcho? then pos + 1 else pos;
    var e := ParseEnded(ts, at);
    EndedPut(ts, at, b, if ts[pos].TEcho? then OP_ECHO else OP_POP);
    if e.Some? { GenEval(e.value.0, b.locals, depth, |b.code|, |b.consts|, loop); }
  }

  lemma {:induction false} ReturnForm(ts: Tokens, pos: nat, b: Blob, depth: nat, loop: Loop)
    requires pos < |ts| && ts[pos].TReturn?
    ensures BareGoal(ts, pos, b, depth, loop) ==
            if Peek(ts, pos + 1).TSemicolon? || Peek(ts, pos + 1).TNewline?
            then Some((More(b, [OP_EMPTY, OP_RETURN]), pos + 2)) else Ended(ts, pos + 1, b, OP_RETURN)
  {
    hide ParseEnded, GenStmt, Ended, Put, GenExpr, Op, ParseBare;
    BareIs(ts, pos);
    var e := ParseEnded(ts, pos + 1);
    EndedPut(ts, pos + 1, b, OP_RETURN);
    if e.Some? { GenReturn(e.value.0, b.locals, depth, |b.code|, |b.consts|, loop); }
    ReturnsEmpty(b, depth, loop, pos + 2);
  }

  lemma {:induction false} ReturnsEmpty(b: Blob, depth: nat, loop: Loop, pos: nat)
    ensures StmtPut(Return(None), b, depth, loop, pos) == Some((More(b, [OP_EMPTY, OP_RETURN]), pos))
  {
    hide Encode, Op;
    EncodeEmptyReturn();
    assert b.consts + [] == b.consts;
  }

  lemma {:induction false} EncodeEmptyReturn()
    ensures Encode(Join(Op(OP_EMPTY), Op(OP_RETURN))) == [OP_EMPTY, OP_RETURN]
  {}

  lemma {:induction false} BreakForm(ts: Tokens, pos: nat, b: Blob, depth: nat, loop: Loop)
    requires pos < |ts| && ts[pos].TBreak?
    ensures var end := StatementEnd(ts, pos + 1);
            BareGoal(ts, pos, b, depth, loop) ==
            if end.None? || loop.start == -1 then None else Some((More(b, [OP_BREAK_PL, 255, 255]), end.value))
  {
    hide GenStmt;
    GenBreak(b.locals, depth, |b.code|, |b.consts|, loop);
    assert [OP_BREAK_PL] + [255, 255] == [OP_BREAK_PL, 255, 255];
    assert b.consts + [] == b.consts;
  }

  lemma {:induction false} ContinueForm(ts: Tokens, pos: nat, b: Blob, depth: nat, loop: Loop)
    requires pos < |ts| && ts[pos].TContinue?
    ensures var end := StatementEnd(ts, pos + 1); var n := Deeper(b.locals, loop.depth); var at := |b.code| + n;
            BareGoal(ts, pos, b, depth, loop) ==
            if end.None? || loop.start == -1 || !BackFits(at, loop.start) then None
            else Some((More(b, Encode(Pops(n)) + Encode(Back(at, loop.start))), end.value))
  {
    hide GenStmt, Deeper, Pops, Back, Encode, Join;
    GenContinue(b.locals, depth, |b.code|, |b.consts|, loop);
    var n := Deeper(b.locals, loop.depth);
    EncodeJoin(Pops(n), Back(|b.code| + n, loop.start));
    assert b.consts + [] == b.consts;
  }

  // ----- choices and loops -----

  /** A jump whose distance is still to be filled in. */
  const HOLE: seq<byte> := [OP_JUMP, 255, 255]

  ghost const NOTHING: Out := Out(Nop, [], true, true)

  /** The second arm of an `if`, which may be missing. */
  ghost function ElseGoal(ts: Tokens, pos: nat, b: Blob, depth: nat, loop: Loop): Goal {
    if Peek(ts, pos).TElse? then StmtGoal(ts, pos + 1, b, depth, loop) else Some((b, pos))
  }

  ghost function Arms(head: seq<byte>, t: seq<byte>, f: seq<byte>): seq<byte> {
    head + Encode(Op16(OP_JUMP_IF_FALSE, 4 + |t|)) + ([OP_POP] + t) + Encode(Op16(OP_JUMP, 1 + |f|)) + ([OP_POP] + f)
  }

  /** The test of an `if` or a loop, and the jump at the end of the first arm, still open. */
  ghost function Tested(b: Blob): Blob { More(b, [OP_JUMP_IF_FALSE, 255, 255, OP_POP]) }

  ghost function Turned(b: Blob): Blob { More(b, HOLE + [OP_POP]) }

  /** `if`: a fault in a part, or a part too long to jump over, is a fault of the whole. */
  lemma {:induction false} IfForm(ts: Tokens, pos: nat, b: Blob, depth: nat, loop: Loop)
    requires pos < |ts| && ts[pos].TIf?
    ensures var g := BareGoal(ts, pos, b, depth, loop); var x := ExprGoal(ts, pos + 1, b);
            if x.None? then g.None? else
            var t := StmtGoal(ts, x.value.1, Tested(x.value.0), depth, loop);
            if t.None? then g.None? else
            g == IfGoal(x.value.0, t, ElseGoal(ts, t.value.1, Turned(t.value.0), depth, loop))
  {
    hide ParseExpr, ParseStmt, GenExpr, ParseBare, Arms, Put, StmtPut, Suffix;
    BareIs(ts, pos);
    var e := ParseExpr(ts, pos + 1, PREC_ASSIGNMENT);
    if e.Some? {
      var t := ParseStmt(ts, e.value.1);
      var p2 := if t.Some? then t.value.1 else 0;
      var f := if !Peek(ts, p2).TElse? then Some((Skip, p2)) else ParseStmt(ts, p2 + 1);
      IfPut(e.value.0, if t.Some? then t.value.0 else Skip, if f.Some? then f.value.0 else Skip, b, depth, loop,
        e.value.1, p2, if f.Some? then f.value.1 else 0);
      SkipsElse(ts, p2, depth, loop);
    }
  }

  lemma {:induction false} SkipsElse(ts: Tokens, pos: nat, depth: nat, loop: Loop)
    ensures forall b :: StmtPut(Skip, b, depth, loop, pos) == Some((b, pos))
  {
    hide StmtPut;
    forall b ensures StmtPut(Skip, b, depth, loop, pos) == Some((b, pos)) { SkipPut(b, depth, loop, pos); }
  }

  /** An `if` put together from its parts. */
  ghost function IfGoal(head: Blob, t: Goal, f: Goal): Goal {
    if t.None? || f.None? then None else
    var arm := Suffix(t.value.0.code, |head.code| + 4); var other := Suffix(f.value.0.code, |t.value.0.code| + 4);
    if 4 + |arm| > MAX_OPERAND || 1 + |other| > MAX_OPERAND then None
    else Some((Blob(Arms(head.code, arm, other), f.value.0.consts, head.locals), f.value.1))
  }

  ghost function Suffix(code: seq<byte>, from: nat): seq<byte> { if from <= |code| then code[from..] else [] }

  lemma {:induction false} IfPut(e: Expr, t: Stmt, f: Stmt, b: Blob, depth: nat, loop: Loop, p1: nat, p2: nat, p3: nat)
    ensures var x := Put(b, GenExpr(e, b.locals, |b.consts|), p1); var g := StmtPut(If(e, t, f), b, depth, loop, p3);
            if x.None? then g.None? else
            var tt := StmtPut(t, Tested(x.value.0), depth, loop, p2);
            if tt.None? then g.None? else
            g == IfGoal(x.value.0, tt, StmtPut(f, Turned(tt.value.0), depth, loop, p3))
  {
    hide GenStmt, GenExpr, Encode, Arms, Branch, Size;
    GenIf(e, t, f, b.locals, depth, |b.code|, |b.consts|, loop);
    var a := GenExpr(e, b.locals, |b.consts|);
    var at1, k1 := |b.code| + Size(a.code) + 4, |b.consts| + |a.consts|;
    var o := GenStmt(t, b.locals, depth, at1, k1, loop);
    var d := GenStmt(f, b.locals, depth, at1 + Size(o.code) + 4, k1 + |o.consts|, loop);
    BranchLaid(b, a, o, d);
    Suffixes(b.code + Encode(a.code), Encode(o.code), Encode(d.code));
  }

  lemma {:induction false} Suffixes(head: seq<byte>, t: seq<byte>, f: seq<byte>)
    ensures var c1 := head + [OP_JUMP_IF_FALSE, 255, 255, OP_POP] + t;
            Suffix(c1, |head| + 4) == t && Suffix(c1 + (HOLE + [OP_POP]) + f, |c1| + 4) == f
  {}

  lemma {:induction false} BranchLaid(b: Blob, a: Out, o: Out, d: Out)
    ensures Arms(b.code + Encode(a.code), Encode(o.code), Encode(d.code)) == b.code + Encode(Branch(a.code, o.code, d.code))
    ensures b.consts + (a.consts + o.consts + d.consts) == b.consts + a.consts + o.consts + d.consts
  {
    hide Encode, Join, Op, Op16;
    var test, skip, arm := Op16(OP_JUMP_IF_FALSE, 4 + Size(o.code)), Op16(OP_JUMP, 1 + Size(d.code)), Join(Op(OP_POP), d.code);
    var arms := Join(Op(OP_POP), Join(o.code, Join(skip, arm)));
    EncodeJoin(a.code, Join(test, arms));
    EncodeJoin(test, arms);
    EncodeJoin(Op(OP_POP), Join(o.code, Join(skip, arm)));
    EncodeJoin(o.code, Join(skip, arm));
    EncodeJoin(skip, arm);
    EncodeJoin(Op(OP_POP), d.code);
    EncodeOp(OP_POP);
  }

  lemma {:induction false} SkipIsNothing(locals: seq<Local>, depth: nat, at: nat, k: nat, loop: Loop)
    ensures GenStmt(Skip, locals, depth, at, k, loop) == NOTHING
  {}

  /** The code of a loop, laid down after `pre`, with its breaks patched. */
  ghost function PatchedGoal(b: Blob, pre: seq<byte>, raw: Code, consts: seq<Const>, pos: nat): Goal {
    var end := |pre| + Size(raw);
    if PatchFits(raw, |pre|, end) then Some((Blob(pre + Encode(PatchBreaks(raw, |pre|, end)), consts, b.locals), pos)) else None
  }

  // Loops before their breaks are patched.

  ghost function RawWhile(a: Code, o: Code, at: nat): Code {
    var atBack := at + Size(a) + 4 + Size(o);
    Join(Join(a, Join(Op16(OP_JUMP_IF_FALSE, 4 + Size(o)), Op(OP_POP))), Join(o, Join(Back(atBack, at), Op(OP_POP))))
  }

  ghost function RawDo(o: Code, a: Code, at: nat): Code {
    var atBack := at + Size(o) + Size(a) + 4;
    Join(o, Join(Join(a, Join(Op16(OP_JUMP_IF_FALSE, 4), Op(OP_POP))), Join(Back(atBack, at), Op(OP_POP))))
  }

  lemma {:induction false} WhileForm(ts: Tokens, pos: nat, b: Blob, depth: nat, loop: Loop)
    requires pos < |ts| && ts[pos].TWhile?
    ensures var g := BareGoal(ts, pos, b, depth, loop); var e := ParseExpr(ts, pos + 1, PREC_ASSIGNMENT);
            if e.None? then g.None? else
            var a := GenExpr(e.value.0, b.locals, |b.consts|); var s := ParseStmt(ts, e.value.1);
            if !a.ok || s.None? then g.None? else
            var o := GenStmt(s.value.0, b.locals, depth, |b.code| + Size(a.code) + 4, |b.consts| + |a.consts|,
                             Loop(|b.code|, loop.depth, |b.locals|));
            if !o.ok || 4 + Size(o.code) > MAX_OPERAND || !BackFits(|b.code| + Size(a.code) + 4 + Size(o.code), |b.code|)
            then g.None? else
            var raw := RawWhile(a.code, o.code, |b.code|); var consts := b.consts + a.consts + o.consts;
            Regular(consts, raw) && g == PatchedGoal(b, b.code, raw, consts, s.value.1)
  {
    hide ParseExpr, ParseStmt, GenStmt, GenExpr, Size, WhileOut, PatchBreaks, PatchFits, Encode, ParseBare, Regular, RawWhile, BackFits;
    BareIs(ts, pos);
    var e := ParseExpr(ts, pos + 1, PREC_ASSIGNMENT);
    if e.Some? {
      var s := ParseStmt(ts, e.value.1);
      if s.Some? {
        var a := GenExpr(e.value.0, b.locals, |b.consts|);
        var at, k, inner := |b.code| + Size(a.code) + 4, |b.consts| + |a.consts|, Loop(|b.code|, loop.depth, |b.locals|);
        var o := GenStmt(s.value.0, b.locals, depth, at, k, inner);
        GenWhile(e.value.0, s.value.0, b.locals, depth, |b.code|, |b.consts|, loop);
        LoopPlain(e.value.0, s.value.0, b.locals, depth, |b.consts|, at, k, inner);
        WhilePatched(b.consts + a.consts + o.consts, a, o, |b.code|);
        assert b.consts + a.consts + o.consts == b.consts + (a.consts + o.consts);
      }
    }
  }

  lemma {:induction false} DoForm(ts: Tokens, pos: nat, b: Blob, depth: nat, loop: Loop)
    requires pos < |ts| && ts[pos].TDo?
    ensures var g := BareGoal(ts, pos, b, depth, loop); var s := ParseStmt(ts, pos + 1);
            if s.None? then g.None? else
            var o := GenStmt(s.value.0, b.locals, depth, |b.code|, |b.consts|, Loop(|b.code|, loop.depth, |b.locals|));
            if !o.ok || !Peek(ts, s.value.1).TWhile? then g.None? else
            var e := ParseExpr(ts, s.value.1 + 1, PREC_ASSIGNMENT);
            if e.None? then g.None? else
            var a := GenExpr(e.value.0, b.locals, |b.consts| + |o.consts|);
            if !a.ok || !BackFits(|b.code| + Size(o.code) + Size(a.code) + 4, |b.code|) then g.None? else
            var raw := RawDo(o.code, a.code, |b.code|); var consts := b.consts + o.consts + a.consts;
            Regular(consts, raw) && g == PatchedGoal(b, b.code, raw, consts, e.value.1)
  {
    hide ParseExpr, ParseStmt, GenStmt, GenExpr, Size, DoOut, PatchBreaks, PatchFits, Encode, ParseBare, Regular, RawDo, BackFits;
    BareIs(ts, pos);
    var s := ParseStmt(ts, pos + 1);
    if s.Some? && Peek(ts, s.value.1).TWhile? {
      var e := ParseExpr(ts, s.value.1 + 1, PREC_ASSIGNMENT);
      if e.Some? {
        var inner := Loop(|b.code|, loop.depth, |b.locals|);
        var o := GenStmt(s.value.0, b.locals, depth, |b.code|, |b.consts|, inner);
        var a := GenExpr(e.value.0, b.locals, |b.consts| + |o.consts|);
        GenDo(s.value.0, e.value.0, b.locals, depth, |b.code|, |b.consts|, loop);
        LoopPlain(e.value.0, s.value.0, b.locals, depth, |b.consts| + |o.consts|, |b.code|, |b.consts|, inner);
        DoPatched(b.consts + o.consts + a.consts, o, a, |b.code|);
        assert b.consts + o.consts + a.consts == b.consts + (o.consts + a.consts);
      }
    }
  }

  /** The test and the body of a loop decode instruction by instruction. */
  lemma {:induction false} LoopPlain(e: Expr, s: Stmt, locals: seq<Local>, depth: nat, k: nat, at: nat, k1: nat, loop: Loop)
    ensures Basic(GenExpr(e, locals, k).code) && Basic(GenStmt(s, locals, depth, at, k1, loop).code)
  {
    hide GenExpr, GenStmt, Basic;
    ExprBasic(e, locals, k);
    StmtShape(s, locals, depth, at, k1, loop);
  }

  /** Patching a whole loop patches its body and nothing else. */
  lemma {:induction false} PatchAround(head: Code, body: Code, tail: Code, at: nat, end: int)
    requires NoBreaks(head) && NoBreaks(tail)
    ensures PatchBreaks(Join(head, Join(body, tail)), at, end) == Join(head, Join(PatchBreaks(body, at + Size(head), end), tail))
    ensures PatchFits(Join(head, Join(body, tail)), at, end) == PatchFits(body, at + Size(head), end)
  {
    hide PatchBreaks, PatchFits;
    PatchJoin(head, Join(body, tail), at, end);
    PatchJoin(body, tail, at + Size(head), end);
    PatchLeavesAlone(head, at, end);
    PatchLeavesAlone(tail, at + Size(head) + Size(body), end);
  }

  lemma {:induction false} WhilePatched(consts: seq<Const>, a: Out, o: Out, at: nat)
    requires NoBreaks(a.code) && Basic(a.code) && Basic(o.code)
    ensures var c := RawWhile(a.code, o.code, at); var w := WhileOut(a, o, at);
            && Regular(consts, c) && Encode(PatchBreaks(c, at, at + Size(c))) == Encode(w.code) && w.consts == a.consts + o.consts
            && w.ok == (a.ok && o.ok && 4 + Size(o.code) <= MAX_OPERAND && BackFits(at + Size(a.code) + 4 + Size(o.code), at)
                        && PatchFits(c, at, at + Size(c)))
  {
    hide PatchBreaks, PatchFits, Encode, Regular, Basic, Op, Op16, Back;
    var atBack := at + Size(a.code) + 4 + Size(o.code);
    var test := Op16(OP_JUMP_IF_FALSE, 4 + Size(o.code));
    var head, tail := Join(a.code, Join(test, Op(OP_POP))), Join(Back(atBack, at), Op(OP_POP));
    BasicOps(4 + Size(o.code));
    BasicBack(atBack, at);
    BackQuiet(atBack, at);
    BasicJoin3(a.code, test, Op(OP_POP));
    BasicJoin3(o.code, Back(atBack, at), Op(OP_POP));
    BasicJoin(head, Join(o.code, tail));
    BasicIsRegular(consts, RawWhile(a.code, o.code, at));
    PatchAround(head, o.code, tail, at, atBack + 4);
  }

  lemma {:induction false} DoPatched(consts: seq<Const>, o: Out, a: Out, at: nat)
    requires NoBreaks(a.code) && Basic(a.code) && Basic(o.code)
    ensures var c := RawDo(o.code, a.code, at); var w := DoOut(o, a, at);
            && Regular(consts, c) && Encode(PatchBreaks(c, at, at + Size(c))) == Encode(w.code) && w.consts == o.consts + a.consts
            && w.ok == (a.ok && o.ok && BackFits(at + Size(o.code) + Size(a.code) + 4, at) && PatchFits(c, at, at + Size(c)))
  {
    hide PatchBreaks, PatchFits, Encode, Regular, Basic, Op, Op16, Back;
    var atBack := at + Size(o.code) + Size(a.code) + 4;
    var test := Op16(OP_JUMP_IF_FALSE, 4);
    var guard, tail := Join(a.code, Join(test, Op(OP_POP))), Join(Back(atBack, at), Op(OP_POP));
    BasicOps(4);
    BasicBack(atBack, at);
    BackQuiet(atBack, at);
    BasicJoin3(a.code, test, Op(OP_POP));
    BasicJoin(Back(atBack, at), Op(OP_POP));
    BasicJoin3(o.code, guard, tail);
    BasicIsRegular(consts, RawDo(o.code, a.code, at));
    PatchJoin(o.code, Join(guard, tail), at, atBack + 4);
    PatchLeavesAlone(Join(guard, tail), at + Size(o.code), atBack + 4);
  }

  // ----- blocks and declarations -----

  lemma {:induction false} BlockForm(ts: Tokens, pos: nat, b: Blob, depth: nat, loop: Loop)
    requires pos < |ts| && ts[pos].TLBrace? && Shallow(b.locals, depth)
    ensures var start := SkipLines(ts, pos + 1);
            var ds := DeclsGoal(ts, start, b, depth + 1, loop); var g := BareGoal(ts, pos, b, depth, loop);
            if ds.None? || !Peek(ts, ds.value.1).TRBrace? then g.None?
            else g == Some((ClosedBlob(ds.value.0, depth), ds.value.1 + 1)) && ClosedBlob(ds.value.0, depth).locals == b.locals
  {
    hide ParseDecls, GenStmt, GenDecls, Encode, Join, Pops, Deeper, SkipLines, ParseBare;
    BareIs(ts, pos);
    var start := SkipLines(ts, pos + 1);
    var r := ParseDecls(ts, start);
    if r.Some? {
      BlockPut(r.value.0, b, depth, loop, r.value.1);
    }
  }

  /** The blob after leaving a scope of `depth + 1`. */
  ghost function ClosedBlob(b: Blob, depth: nat): Blob {
    var n := Deeper(b.locals, depth);
    Blob(b.code + Encode(Pops(n)), b.consts, b.locals[..|b.locals| - n])
  }

  lemma {:induction false} BlockPut(ds: Decls, b: Blob, depth: nat, loop: Loop, pos: nat)
    requires Shallow(b.locals, depth)
    ensures var d := DeclsPut(ds, b, depth + 1, loop, pos); var g := StmtPut(Block(ds), b, depth, loop, pos);
            if d.None? then g.None?
            else ClosedBlob(d.value.0, depth).locals == b.locals && g == Some((ClosedBlob(d.value.0, depth), pos))
  {
    hide GenStmt, GenDecls, Encode, Join, Pops, Deeper;
    GenBlock(ds, b.locals, depth, |b.code|, |b.consts|, loop);
    var a := GenDecls(ds, b.locals, depth + 1, |b.code|, |b.consts|, loop);
    var n := Deeper(a.locals, depth);
    DeclsLocals(ds, b.locals, depth + 1, |b.code|, |b.consts|, loop, b.locals);
    DeeperCounts(b.locals, a.locals, depth);
    EncodeJoin(a.code, Pops(n));
    assert b.code + Encode(a.code) + Encode(Pops(n)) == b.code + (Encode(a.code) + Encode(Pops(n)));
  }

  lemma {:induction false} ThenPut(s: Stmt, rest: Decls, b: Blob, depth: nat, loop: Loop, mid: nat, pos: nat)
    ensures var x := StmtPut(s, b, depth, loop, mid); var g := DeclsPut(Then(s, rest), b, depth, loop, pos);
            if x.None? then g.None? else g == DeclsPut(rest, x.value.0, depth, loop, pos)
  {
    hide GenStmt, GenDecls, Encode, Join, Size;
    GenThen(s, rest, b.locals, depth, |b.code|, |b.consts|, loop);
    var a := GenStmt(s, b.locals, depth, |b.code|, |b.consts|, loop);
    var d := GenDecls(rest, b.locals, depth, |b.code| + Size(a.code), |b.consts| + |a.consts|, loop);
    EncodeJoin(a.code, d.code);
    assert b.code + Encode(a.code) + Encode(d.code) == b.code + (Encode(a.code) + Encode(d.code));
    assert b.consts + a.consts + d.consts == b.consts + (a.consts + d.consts);
  }

  /** One declared name: it is listed, but not yet usable, while its initializer is compiled. */
  ghost function VarPut(d: Declarator, b: Blob, depth: nat, pos: nat): (g: Goal)
    ensures g.Some? ==> g.value.1 == pos
  {
    if Clashes(b.locals, depth, d.name) || |b.locals| >= MAX_LOCALS then None else
    var o := InitOut(d.name, d.init, b.locals, |b.consts|);
    if !o.ok then None
    else Some((Blob(b.code + Encode(o.code), b.consts + o.consts, b.locals + [Local(d.name, depth)]), pos))
  }

  lemma {:induction false} DeclarePut(d: Declarator, rest: Decls, b: Blob, depth: nat, loop: Loop, mid: nat, pos: nat)
    ensures var x := VarPut(d, b, depth, mid); var g := DeclsPut(Declare(d.name, d.init, rest), b, depth, loop, pos);
            if x.None? then g.None? else g == DeclsPut(rest, x.value.0, depth, loop, pos)
  {
    hide GenExpr, GenDecls, Encode, Join, Size, Clashes, InitOut;
    GenDeclared(d.name, d.init, rest, b.locals, depth, |b.code|, |b.consts|, loop);
    var a := InitOut(d.name, d.init, b.locals, |b.consts|);
    var r := GenDecls(rest, b.locals + [Local(d.name, depth)], depth, |b.code| + Size(a.code), |b.consts| + |a.consts|, loop);
    EncodeJoin(a.code, r.code);
    assert b.code + Encode(a.code) + Encode(r.code) == b.code + (Encode(a.code) + Encode(r.code));
    assert b.consts + a.consts + r.consts == b.consts + (a.consts + r.consts);
  }

  /** A list of declared names, before whatever follows it. */
  ghost function VarsPut(vars: seq<Declarator>, b: Blob, depth: nat, pos: nat): (g: Goal)
    ensures g.Some? ==> g.value.1 == pos
    decreases |vars|
  {
    if vars == [] then Some((b, pos)) else
    var x := VarPut(vars[0], b, depth, pos);
    if x.None? then None else VarsPut(vars[1..], x.value.0, depth, pos)
  }

  lemma {:induction false} DeclaresPut(vars: seq<Declarator>, rest: Decls, b: Blob, depth: nat, loop: Loop, mid: nat, pos: nat)
    ensures var x := VarsPut(vars, b, depth, mid); var g := DeclsPut(Declares(vars, rest), b, depth, loop, pos);
            if x.None? then g.None? else g == DeclsPut(rest, x.value.0, depth, loop, pos)
    decreases |vars|
  {
    hide DeclsPut, VarPut;
    if vars != [] {
      DeclarePut(vars[0], Declares(vars[1..], rest), b, depth, loop, mid, pos);
      var x := VarPut(vars[0], b, depth, mid);
      if x.Some? { DeclaresPut(vars[1..], rest, x.value.0, depth, loop, mid, pos); }
    }
  }

  ghost function VarGoal(ts: Tokens, pos: nat, b: Blob, depth: nat): Goal {
    var d := ParseDeclarator(ts, pos);
    if d.None? then None else VarPut(d.value.0, b, depth, d.value.1)
  }

  ghost function VarsGoal(ts: Tokens, pos: nat, b: Blob, depth: nat): Goal {
    var vars := ParseVars(ts, pos);
    if vars.None? then None else VarsPut(vars.value.0, b, depth, vars.value.1)
  }

  lemma {:induction false} VarsForm(ts: Tokens, pos: nat, b: Blob, depth: nat)
    ensures var x := VarGoal(ts, pos, b, depth); var g := VarsGoal(ts, pos, b, depth);
            if x.None? then g.None?
            else if !Peek(ts, x.value.1).TComma? then g == x
            else g == VarsGoal(ts, SkipLines(ts, x.value.1 + 1), x.value.0, depth)
  {
    hide ParseDeclarator, SkipLines, VarPut;
    var d := ParseDeclarator(ts, pos);
    if d.Some? {
      var x := VarPut(d.value.0, b, depth, d.value.1);
      if !Peek(ts, d.value.1).TComma? {
        OneVar(d.value.0, b, depth, d.value.1);
      } else {
        var rest := ParseVars(ts, SkipLines(ts, d.value.1 + 1));
        if rest.Some? {
          MoreVars(d.value.0, rest.value.0, b, depth, d.value.1, rest.value.1);
        }
      }
    }
  }

  lemma {:induction false} OneVar(d: Declarator, b: Blob, depth: nat, pos: nat)
    ensures VarsPut([d], b, depth, pos) == VarPut(d, b, depth, pos)
  {
    hide Encode, Clashes, InitOut;
    var x := VarPut(d, b, depth, pos);
    if x.Some? { assert VarsPut([], x.value.0, depth, pos) == x; }
  }

  lemma {:induction false} MoreVars(d: Declarator, rest: seq<Declarator>, b: Blob, depth: nat, mid: nat, pos: nat)
    ensures var x := VarPut(d, b, depth, mid);
            VarsPut([d] + rest, b, depth, pos) == if x.None? then None else VarsPut(rest, x.value.0, depth, pos)
  {
    hide Encode, Clashes, InitOut;
    assert ([d] + rest)[1..] == rest;
  }

  lemma {:induction false} DeclsForm(ts: Tokens, pos: nat, b: Blob, depth: nat, loop: Loop)
    requires pos <= |ts|
    ensures var g := DeclsGoal(ts, pos, b, depth, loop); var start := SkipLines(ts, pos);
            if Peek(ts, pos).TRBrace? || Peek(ts, pos).TEof? then g == Some((b, pos))
            else if Peek(ts, start).TVar? then
              var x := VarsGoal(ts, start + 1, b, depth);
              if x.None? then g.None? else
              var end := StatementEnd(ts, x.value.1);
              if end.None? then g.None? else g == DeclsGoal(ts, SkipLines(ts, end.value), x.value.0, depth, loop)
            else
              var x := StmtGoal(ts, start, b, depth, loop);
              if x.None? then g.None? else g == DeclsGoal(ts, x.value.1, x.value.0, depth, loop)
  {
    hide ParseStmt, ParseVars, SkipLines, StatementEnd, DeclsPut, VarsPut, StmtPut;
    var start := SkipLines(ts, pos);
    if Peek(ts, pos).TRBrace? || Peek(ts, pos).TEof? {
      DonePut(b, depth, loop, pos);
    } else if Peek(ts, start).TVar? {
      var vars := ParseVars(ts, start + 1);
      if vars.Some? {
        var end := StatementEnd(ts, vars.value.1);
        if end.Some? {
          var rest := ParseDecls(ts, SkipLines(ts, end.value));
          if rest.Some? { DeclaresPut(vars.value.0, rest.value.0, b, depth, loop, vars.value.1, rest.value.1); }
        }
      }
    } else {
      var s := ParseStmt(ts, start);
      if s.Some? {
        var rest := ParseDecls(ts, s.value.1);
        if rest.Some? { ThenPut(s.value.0, rest.value.0, b, depth, loop, s.value.1, rest.value.1); }
      }
    }
  }

  lemma {:induction false} DonePut(b: Blob, depth: nat, loop: Loop, pos: nat)
    ensures DeclsPut(Done, b, depth, loop, pos) == Some((b, pos))
  {
    assert b.code + Encode(Nop) == b.code && b.consts + [] == b.consts;
  }

  // ----- iter -----

  lemma {:induction false} AppendPut(a: Decls, rest: Decls, b: Blob, depth: nat, loop: Loop, mid: nat, pos: nat)
    ensures var x := DeclsPut(a, b, depth, loop, mid); var g := DeclsPut(Append(a, rest), b, depth, loop, pos);
            if x.None? then g.None? else g == DeclsPut(rest, x.value.0, depth, loop, pos)
    decreases a
  {
    hide DeclsPut, VarPut, StmtPut;
    match a
    case Done => DonePut(b, depth, loop, mid);
    case Declare(y, init, r) =>
      var d := Declarator(y, init);
      DeclarePut(d, r, b, depth, loop, mid, mid);
      DeclarePut(d, Append(r, rest), b, depth, loop, mid, pos);
      var x := VarPut(d, b, depth, mid);
      if x.Some? { AppendPut(r, rest, x.value.0, depth, loop, mid, pos); }
    case Then(s, r) =>
      ThenPut(s, r, b, depth, loop, mid, mid);
      ThenPut(s, Append(r, rest), b, depth, loop, mid, pos);
      var x := StmtPut(s, b, depth, loop, mid);
      if x.Some? { AppendPut(r, rest, x.value.0, depth, loop, mid, pos); }
  }

  ghost function InitGoal(ts: Tokens, pos: nat, b: Blob, depth: nat, loop: Loop): Goal
    requires pos <= |ts|
  {
    var r := ParseInit(ts, pos);
    if r.None? then None else DeclsPut(r.value.0, b, depth, loop, r.value.1)
  }

  lemma {:induction false} InitForm(ts: Tokens, pos: nat, b: Blob, depth: nat, loop: Loop)
    requires pos <= |ts|
    ensures var g := InitGoal(ts, pos, b, depth, loop);
            if Peek(ts, pos).TSemicolon? then g == Some((b, pos + 1))
            else if Peek(ts, pos).TVar? then
              var x := VarsGoal(ts, pos + 1, b, depth);
              if x.None? || !Peek(ts, x.value.1).TSemicolon? then g.None?
              else g == Some((x.value.0, SkipLines(ts, x.value.1 + 1)))
            else
              var x := ExprGoal(ts, pos, b);
              if x.None? || !Peek(ts, x.value.1).TSemicolon? then g.None?
              else g == Some((More(x.value.0, [OP_POP]), SkipLines(ts, x.value.1 + 1)))
  {
    hide ParseExpr, ParseVars, SkipLines, DeclsPut, VarsPut;
    if Peek(ts, pos).TSemicolon? {
      DonePut(b, depth, loop, pos + 1);
    } else if Peek(ts, pos).TVar? {
      var vars := ParseVars(ts, pos + 1);
      if vars.Some? && Peek(ts, vars.value.1).TSemicolon? {
        var end := SkipLines(ts, vars.value.1 + 1);
        DeclaresPut(vars.value.0, Done, b, depth, loop, vars.value.1, end);
        var x := VarsPut(vars.value.0, b, depth, vars.value.1);
        if x.Some? { DonePut(x.value.0, depth, loop, end); }
      }
    } else {
      var e := ParseExpr(ts, pos, PREC_ASSIGNMENT);
      if e.Some? && Peek(ts, e.value.1).TSemicolon? {
        InitExpression(e.value.0, b, depth, loop, e.value.1, SkipLines(ts, e.value.1 + 1));
      }
    }
  }

  lemma {:induction false} InitExpression(e: Expr, b: Blob, depth: nat, loop: Loop, mid: nat, pos: nat)
    ensures var x := Put(b, GenExpr(e, b.locals, |b.consts|), mid); var g := DeclsPut(Then(Eval(e), Done), b, depth, loop, pos);
            if x.None? then g.None? else g == Some((More(x.value.0, [OP_POP]), pos))
  {
    hide GenExpr, GenStmt, DeclsPut, Encode, Op, Join;
    ThenPut(Eval(e), Done, b, depth, loop, pos, pos);
    GenEval(e, b.locals, depth, |b.code|, |b.consts|, loop);
    var a := GenExpr(e, b.locals, |b.consts|);
    EncodeJoin(a.code, Op(OP_POP));
    EncodeOp(OP_POP);
    assert b.code + Encode(a.code) + [OP_POP] == b.code + (Encode(a.code) + [OP_POP]);
    var x := StmtPut(Eval(e), b, depth, loop, pos);
    if x.Some? { DonePut(x.value.0, depth, loop, pos); }
  }

  ghost function IterGoal(ts: Tokens, pos: nat, b: Blob, depth: nat, loop: Loop): Goal
    requires pos <= |ts|
  {
    var r := ParseIterLoop(ts, pos);
    if r.None? then None else StmtPut(r.value.0, b, depth, loop, r.value.1)
  }

  lemma {:induction false} IterForm(ts: Tokens, pos: nat, b: Blob, depth: nat, loop: Loop)
    requires pos < |ts| && ts[pos].TIter? && Shallow(b.locals, depth)
    ensures var g := BareGoal(ts, pos, b, depth, loop); var init := InitGoal(ts, pos + 1, b, depth + 1, loop);
            if init.None? then g.None? else
            && pos < init.value.1 <= |ts|
            && var x := IterGoal(ts, init.value.1, init.value.0, depth + 1, loop);
               if x.None? then g.None?
               else ClosedBlob(x.value.0, depth).locals == b.locals && g == Some((ClosedBlob(x.value.0, depth), x.value.1))
  {
    hide ParseInit, ParseIterLoop, ParseBare, DeclsPut, StmtPut, ClosedBlob;
    BareIs(ts, pos);
    var init := ParseInit(ts, pos + 1);
    if init.Some? {
      var i := DeclsPut(init.value.0, b, depth + 1, loop, init.value.1);
      var r := ParseIterLoop(ts, init.value.1);
      if r.Some? {
        var ds, end := Then(r.value.0, Done), r.value.1;
        AppendPut(init.value.0, ds, b, depth + 1, loop, init.value.1, end);
        BlockPut(Append(init.value.0, ds), b, depth, loop, end);
        if i.Some? {
          ThenPut(r.value.0, Done, i.value.0, depth + 1, loop, end, end);
          var x := StmtPut(r.value.0, i.value.0, depth + 1, loop, end);
          if x.Some? { DonePut(x.value.0, depth + 1, loop, end); }
        }
      }
    }
  }

  /** Everything an `iter` loop checks besides its breaks. */
  ghost predicate IterFits(sh: IterShape, atBack: nat) {
    && (sh.hasCond ==> atBack - sh.at - sh.cond <= MAX_OPERAND)
    && (sh.hasIncr ==> sh.incr + 4 <= MAX_OPERAND && BackFits(sh.AtIncr() + sh.incr + 1, sh.at))
    && BackFits(atBack, sh.Start())
  }

  lemma {:induction false} IterLoopForm(ts: Tokens, pos: nat, b: Blob, depth: nat, loop: Loop)
    requires pos <= |ts|
    ensures var g := IterGoal(ts, pos, b, depth, loop); var cond := ParseTest(ts, pos);
            if cond.None? then g.None? else
            var c := GenOpt(cond.value.0, b.locals, |b.consts|); var incr := ParseIncrement(ts, cond.value.1);
            if !c.ok || incr.None? then g.None? else
            var i := GenOpt(incr.value.0, b.locals, |b.consts| + |c.consts|); var body := ParseStmt(ts, incr.value.1);
            if !i.ok || body.None? then g.None? else
            var sh := IterShape(cond.value.0.Some?, incr.value.0.Some?, Size(c.code), Size(i.code), |b.code|);
            var o := GenStmt(body.value.0, b.locals, depth, sh.AtBody(), |b.consts| + |c.consts| + |i.consts|,
                             Loop(sh.Start(), depth, |b.locals|));
            if !o.ok || !IterFits(sh, sh.AtBody() + Size(o.code)) then g.None? else
            var raw := RawIter(sh, c.code, i.code, o.code); var consts := b.consts + c.consts + i.consts + o.consts;
            && Regular(consts, raw)
            && g == PatchedGoal(b, b.code + RawPre(sh, c.code, o.code), raw, consts, body.value.1)
  {
    hide ParseTest, ParseIncrement, ParseStmt, GenStmt, GenOpt, Size, Encode, IterOut, PatchBreaks, PatchFits, BackFits, RawIter, RawPre, Regular;
    var cond := ParseTest(ts, pos);
    if cond.Some? {
      var incr := ParseIncrement(ts, cond.value.1);
      if incr.Some? {
        var body := ParseStmt(ts, incr.value.1);
        if body.Some? {
          var c := GenOpt(cond.value.0, b.locals, |b.consts|);
          var i := GenOpt(incr.value.0, b.locals, |b.consts| + |c.consts|);
          var sh := IterShape(cond.value.0.Some?, incr.value.0.Some?, Size(c.code), Size(i.code), |b.code|);
          var k, inner := |b.consts| + |c.consts| + |i.consts|, Loop(sh.Start(), depth, |b.locals|);
          var o := GenStmt(body.value.0, b.locals, depth, sh.AtBody(), k, inner);
          GenIter(cond.value.0, incr.value.0, body.value.0, b.locals, depth, |b.code|, |b.consts|, loop);
          IterPlain(cond.value.0, incr.value.0, body.value.0, b.locals, depth, |b.consts|, |b.consts| + |c.consts|, sh.AtBody(), k, inner);
          IterPatched(b.consts + c.consts + i.consts + o.consts, sh, c, i, o);
          RawPreSize(sh, c.code, o.code);
          assert b.consts + c.consts + i.consts + o.consts == b.consts + (c.consts + i.consts + o.consts);
          assert forall x: seq<byte> :: b.code + RawPre(sh, c.code, o.code) + x == b.code + (RawPre(sh, c.code, o.code) + x);
        }
      }
    }
  }

  lemma {:induction false} RawPreSize(sh: IterShape, c: Code, o: Code)
    requires sh.cond == Size(c)
    ensures sh.at + |RawPre(sh, c, o)| == sh.Start()
  {
    hide Encode;
  }

  lemma {:induction false} IterPlain(c: Option<Expr>, i: Option<Expr>, s: Stmt, locals: seq<Local>, depth: nat, k: nat, k1: nat,
      at: nat, k2: nat, loop: Loop)
    ensures Basic(GenOpt(c, locals, k).code) && Basic(GenOpt(i, locals, k1).code) && Basic(GenStmt(s, locals, depth, at, k2, loop).code)
  {
    hide GenOpt, GenStmt, Basic;
    OptBasic(c, locals, k);
    OptBasic(i, locals, k1);
    StmtShape(s, locals, depth, at, k2, loop);
  }

  /** The loop from where `continue` goes, with its breaks unpatched, and what comes before. */
  ghost function RawIter(sh: IterShape, c: Code, i: Code, o: Code): Code {
    var atBack := sh.AtBody() + Size(o);
    if sh.hasIncr then Join(Join(i, Join(Op(OP_POP), Back(sh.AtIncr() + sh.incr + 1, sh.at))), Join(o, IterTail(sh, atBack)))
    else Join(IterHead(sh, c, atBack), Join(o, IterTail(sh, atBack)))
  }

  ghost function RawPre(sh: IterShape, c: Code, o: Code): seq<byte> {
    if sh.hasIncr then Encode(IterHead(sh, c, sh.AtBody() + Size(o))) + Encode(Op16(OP_JUMP, sh.incr + 4)) else []
  }

  lemma {:induction false} IterPartsPlain(sh: IterShape, c: Code, i: Code, atBack: nat)
    requires NoBreaks(c) && NoBreaks(i) && Basic(c) && Basic(i) && sh.cond == Size(c) && sh.incr == Size(i)
    ensures var head := IterHead(sh, c, atBack); var tail := IterTail(sh, atBack);
            var step := Join(i, Join(Op(OP_POP), Back(sh.AtIncr() + sh.incr + 1, sh.at)));
            && NoBreaks(head) && NoBreaks(step) && NoBreaks(tail) && Basic(head) && Basic(step) && Basic(tail)
            && sh.at + Size(head) == sh.AtStep() && Size(step) == sh.incr + 4 && Size(tail) == 3 + if sh.hasCond then 1 else 0
  {
    hide Basic, Op, Op16, Back;
    var back := sh.AtIncr() + sh.incr + 1;
    BasicNop();
    BasicOps(atBack - sh.at - sh.cond);
    BasicBack(back, sh.at);
    BackQuiet(back, sh.at);
    BasicBack(atBack, sh.Start());
    BackQuiet(atBack, sh.Start());
    BasicJoin3(c, Op16(OP_JUMP_IF_FALSE, atBack - sh.at - sh.cond), Op(OP_POP));
    BasicJoin3(i, Op(OP_POP), Back(back, sh.at));
    BasicJoin(Back(atBack, sh.Start()), if sh.hasCond then Op(OP_POP) else Nop);
  }

  /** Patching the breaks of an `iter` loop from where `continue` goes patches its body. */
  lemma {:induction false} IterPatches(consts: seq<Const>, sh: IterShape, c: Code, i: Code, o: Code)
    requires NoBreaks(c) && NoBreaks(i) && Basic(c) && Basic(i) && Basic(o) && sh.cond == Size(c) && sh.incr == Size(i)
    ensures var atBack := sh.AtBody() + Size(o); var raw := RawIter(sh, c, i, o);
            var end := atBack + 3 + if sh.hasCond then 1 else 0;
            var step := Join(i, Join(Op(OP_POP), Back(sh.AtIncr() + sh.incr + 1, sh.at)));
            && Regular(consts, raw) && sh.Start() + Size(raw) == end
            && PatchBreaks(raw, sh.Start(), end) ==
               Join(if sh.hasIncr then step else IterHead(sh, c, atBack), Join(PatchBreaks(o, sh.AtBody(), end), IterTail(sh, atBack)))
            && PatchFits(raw, sh.Start(), end) == PatchFits(o, sh.AtBody(), end)
  {
    hide PatchBreaks, PatchFits, Regular, Basic, Op, Op16, Back, IterHead, IterTail, Size;
    var atBack := sh.AtBody() + Size(o);
    var end := atBack + 3 + if sh.hasCond then 1 else 0;
    var head, tail := IterHead(sh, c, atBack), IterTail(sh, atBack);
    var front := if sh.hasIncr then Join(i, Join(Op(OP_POP), Back(sh.AtIncr() + sh.incr + 1, sh.at))) else head;
    IterPartsPlain(sh, c, i, atBack);
    BasicJoin3(front, o, tail);
    BasicIsRegular(consts, RawIter(sh, c, i, o));
    PatchAround(front, o, tail, sh.Start(), end);
  }

  lemma {:induction false} IterPatched(consts: seq<Const>, sh: IterShape, c: Out, i: Out, o: Out)
    requires NoBreaks(c.code) && NoBreaks(i.code) && Basic(c.code) && Basic(i.code) && Basic(o.code)
    requires sh.cond == Size(c.code) && sh.incr == Size(i.code)
    ensures var w := IterOut(sh, c, i, o); var atBack := sh.AtBody() + Size(o.code);
            var raw := RawIter(sh, c.code, i.code, o.code); var end := sh.Start() + Size(raw);
            && Regular(consts, raw) && end == atBack + 3 + (if sh.hasCond then 1 else 0) && w.consts == c.consts + i.consts + o.consts
            && RawPre(sh, c.code, o.code) + Encode(PatchBreaks(raw, sh.Start(), end)) == Encode(w.code)
            && w.ok == (c.ok && i.ok && o.ok && IterFits(sh, atBack) && PatchFits(raw, sh.Start(), end))
  {
    hide PatchBreaks, PatchFits, Encode, Regular, Basic, Op, Op16, Back, BackFits, IterHead, IterTail, IterStep, RawIter, IterOut;
    var atBack := sh.AtBody() + Size(o.code);
    var end := atBack + 3 + if sh.hasCond then 1 else 0;
    IterPatches(consts, sh, c.code, i.code, o.code);
    IterOutParts(sh, c, i, o);
    IterEncoded(sh, c.code, i.code, atBack, PatchBreaks(o.code, sh.AtBody(), end), IterTail(sh, atBack));
  }

  lemma {:induction false} IterOutParts(sh: IterShape, c: Out, i: Out, o: Out)
    ensures var w := IterOut(sh, c, i, o); var atBack := sh.AtBody() + Size(o.code);
            var end := atBack + 3 + if sh.hasCond then 1 else 0;
            && w.code == Join(IterHead(sh, c.code, atBack), Join(IterStep(sh, i.code),
                           Join(PatchBreaks(o.code, sh.AtBody(), end), IterTail(sh, atBack))))
            && w.consts == c.consts + i.consts + o.consts
            && w.ok == (c.ok && i.ok && o.ok && IterFits(sh, atBack) && PatchFits(o.code, sh.AtBody(), end))
  {
    hide PatchBreaks, PatchFits, IterHead, IterTail, IterStep, BackFits, Join, Size;
  }

  lemma {:induction false} IterEncoded(sh: IterShape, c: Code, i: Code, atBack: nat, body: Code, tail: Code)
    ensures var step := Join(i, Join(Op(OP_POP), Back(sh.AtIncr() + sh.incr + 1, sh.at)));
            var head := IterHead(sh, c, atBack);
            Encode(Join(head, Join(IterStep(sh, i), Join(body, tail)))) ==
            if sh.hasIncr then Encode(head) + Encode(Op16(OP_JUMP, sh.incr + 4)) + Encode(Join(step, Join(body, tail)))
            else [] + Encode(Join(head, Join(body, tail)))
  {
    hide Encode, Op, Op16, Back, IterHead, Join;
    var head, skip := IterHead(sh, c, atBack), Op16(OP_JUMP, sh.incr + 4);
    var step := Join(i, Join(Op(OP_POP), Back(sh.AtIncr() + sh.incr + 1, sh.at)));
    EncodeJoin(head, Join(IterStep(sh, i), Join(body, tail)));
    EncodeJoin(IterStep(sh, i), Join(body, tail));
    EncodeJoin(skip, step);
    EncodeJoin(step, Join(body, tail));
    EncodeJoin(head, Join(body, tail));
    EncodeNop();
  }

  lemma {:induction false} EncodeNop()
    ensures Encode(Nop) == []
  {}

  // ----- using -----

  /** What compiling the rest of a `using` statement has to add. */
  datatype Cased = Cased(code: seq<byte>, consts: seq<Const>, table: map<Value, nat>, dflt: int, pos: nat)

  ghost function CasesPut(cases: Cases, b: Blob, depth: nat, base: nat, loop: Loop, pos: nat): Option<Cased>
    requires base <= |b.code|
  {
    var c := GenCases(cases, b.locals, depth, |b.code|, base, |b.consts|, loop);
    if c.ok then Some(Cased(Encode(c.code), c.consts, c.table, c.dfltJump, pos)) else None
  }

  ghost function CasesGoal(ts: Tokens, pos: nat, b: Blob, depth: nat, base: nat, loop: Loop): Option<Cased>
    requires pos <= |ts| && base <= |b.code|
  {
    var r := ParseCases(ts, pos);
    if r.None? then None else CasesPut(r.value.0, b, depth, base, loop, r.value.1)
  }

  ghost function CaseBodyGoal(ts: Tokens, pos: nat, b: Blob, depth: nat, loop: Loop): Goal
    requires pos <= |ts|
  {
    var r := ParseCaseBody(ts, pos);
    if r.None? then None else StmtPut(r.value.0, b, depth, loop, r.value.1)
  }

  lemma {:induction false} SeqPut(s: Stmt, rest: Stmt, b: Blob, depth: nat, loop: Loop, mid: nat, pos: nat)
    ensures var x := StmtPut(s, b, depth, loop, mid); var g := StmtPut(Seq(s, rest), b, depth, loop, pos);
            if x.None? then g.None? else g == StmtPut(rest, x.value.0, depth, loop, pos)
  {
    hide GenStmt, Encode, Join, Size;
    GenSeq(s, rest, b.locals, depth, |b.code|, |b.consts|, loop);
    var a := GenStmt(s, b.locals, depth, |b.code|, |b.consts|, loop);
    var d := GenStmt(rest, b.locals, depth, |b.code| + Size(a.code), |b.consts| + |a.consts|, loop);
    EncodeJoin(a.code, d.code);
    assert b.code + Encode(a.code) + Encode(d.code) == b.code + (Encode(a.code) + Encode(d.code));
    assert b.consts + a.consts + d.consts == b.consts + (a.consts + d.consts);
  }

  lemma {:induction false} SkipPut(b: Blob, depth: nat, loop: Loop, pos: nat)
    ensures StmtPut(Skip, b, depth, loop, pos) == Some((b, pos))
  {
    SkipIsNothing(b.locals, depth, |b.code|, |b.consts|, loop);
    assert b.code + Encode(Nop) == b.code && b.consts + [] == b.consts;
  }

  lemma {:induction false} CaseBodyForm(ts: Tokens, pos: nat, b: Blob, depth: nat, loop: Loop)
    requires pos <= |ts|
    ensures var g := CaseBodyGoal(ts, pos, b, depth, loop);
            if EndsCase(Peek(ts, pos)) then g == Some((b, pos)) else
            var x := StmtGoal(ts, pos, b, depth, loop);
            if x.None? then g.None? else g == CaseBodyGoal(ts, x.value.1, x.value.0, depth, loop)
  {
    hide ParseStmt, StmtPut;
    SkipPut(b, depth, loop, pos);
    if !EndsCase(Peek(ts, pos)) {
      var s := ParseStmt(ts, pos);
      if s.Some? {
        var rest := ParseCaseBody(ts, s.value.1);
        if rest.Some? { SeqPut(s.value.0, rest.value.0, b, depth, loop, s.value.1, rest.value.1); }
      }
    }
  }

  /** Finished cases, each followed by a jump past everything after it. */
  ghost function Weave(items: seq<seq<byte>>, tail: seq<byte>): seq<byte> {
    if items == [] then tail
    else items[0] + Encode(Op16(OP_JUMP, |Weave(items[1..], tail)|)) + Weave(items[1..], tail)
  }

  ghost predicate WeaveFits(items: seq<seq<byte>>, tail: seq<byte>) {
    items == [] || (|Weave(items[1..], tail)| <= MAX_OPERAND && WeaveFits(items[1..], tail))
  }

  /** The same before the jumps are patched. */
  ghost function Held(items: seq<seq<byte>>): seq<byte> {
    if items == [] then [] else items[0] + HOLE + Held(items[1..])
  }

  lemma {:induction false} WeaveAppend(items: seq<seq<byte>>, x: seq<byte>, tail: seq<byte>)
    ensures var last := x + Encode(Op16(OP_JUMP, |tail|)) + tail;
            && Weave(items + [x], tail) == Weave(items, last)
            && WeaveFits(items + [x], tail) == (WeaveFits(items, last) && |tail| <= MAX_OPERAND)
  {
    hide Encode, Op16;
    if items == [] {
      assert (items + [x])[1..] == [];
      assert Weave([], tail) == tail && WeaveFits([], tail);
    } else {
      assert (items + [x])[1..] == items[1..] + [x];
      WeaveAppend(items[1..], x, tail);
    }
  }

  lemma {:induction false} HeldAppend(items: seq<seq<byte>>, x: seq<byte>)
    ensures Held(items + [x]) == Held(items) + x + HOLE
  {
    if items == [] {
      assert Held([]) == [] && (items + [x])[1..] == [];
    } else {
      assert (items + [x])[1..] == items[1..] + [x];
      HeldAppend(items[1..], x);
    }
  }

  lemma {:induction false} HeldLength(items: seq<seq<byte>>, tail: seq<byte>)
    ensures |Weave(items, tail)| == |Held(items)| + |tail|
  {
    hide Encode, Op16;
    if items != [] { HeldLength(items[1..], tail); }
  }

  /** `g` after the finished cases `items`, their constants and their labels. */
  ghost function Prepend(items: seq<seq<byte>>, consts: seq<Const>, table: map<Value, nat>, g: Option<Cased>): Option<Cased> {
    if g.None? || !WeaveFits(items, g.value.code) then None
    else Some(Cased(Weave(items, g.value.code), consts + g.value.consts, table + g.value.table, g.value.dflt, g.value.pos))
  }

  lemma {:induction false} NothingAfter(items: seq<seq<byte>>, consts: seq<Const>, table: map<Value, nat>)
    ensures Prepend(items, consts, table, None).None?
  {}

  lemma {:induction false} PrependNothing(g: Option<Cased>)
    ensures Prepend([], [], map[], g) == g
  {
    if g.Some? {
      assert [] + g.value.consts == g.value.consts && map[] + g.value.table == g.value.table;
    }
  }

  lemma {:induction false} PrependOne(items: seq<seq<byte>>, consts: seq<Const>, table: map<Value, nat>, x: seq<byte>,
      more: seq<Const>, labels: map<Value, nat>, g: Option<Cased>)
    ensures Prepend(items, consts, table, Prepend([x], more, labels, g)) == Prepend(items + [x], consts + more, table + labels, g)
  {
    hide Weave, WeaveFits;
    if g.Some? {
      WeaveAppend(items, x, g.value.code);
      WeaveSingle(x, g.value.code);
      assert consts + more + g.value.consts == consts + (more + g.value.consts);
      assert table + labels + g.value.table == table + (labels + g.value.table);
    }
  }

  lemma {:induction false} WeaveSingle(x: seq<byte>, tail: seq<byte>)
    ensures Weave([x], tail) == x + Encode(Op16(OP_JUMP, |tail|)) + tail
    ensures WeaveFits([x], tail) == (|tail| <= MAX_OPERAND)
  {
    hide Encode, Op16;
    assert Weave([], tail) == tail && WeaveFits([], tail);
  }

  lemma {:induction false} WhenPut(labels: seq<Literal>, body: Stmt, rest: Cases, b: Blob, depth: nat, base: nat, loop: Loop,
      mid: nat, pos: nat)
    requires base <= |b.code| && LNil !in labels
    ensures var x := StmtPut(body, b, depth, loop, mid);
            var g := CasesPut(When(labels, body, rest), b, depth, base, loop, pos);
            if x.None? then g.None? else
            && |b.code| <= |x.value.0.code| && |b.consts| <= |x.value.0.consts|
            && g == Prepend([x.value.0.code[|b.code|..]], x.value.0.consts[|b.consts|..], LabelTable(labels, |b.code| - base),
                            CasesPut(rest, More(x.value.0, HOLE), depth, base, loop, pos))
  {
    hide GenStmt, GenCases, Encode, Join, Op16, LabelTable, Weave, WeaveFits;
    CasesUnfold(When(labels, body, rest), b.locals, depth, |b.code|, base, |b.consts|, loop);
    var o := GenStmt(body, b.locals, depth, |b.code|, |b.consts|, loop);
    var r := GenCases(rest, b.locals, depth, |b.code| + Size(o.code) + 3, base, |b.consts| + |o.consts|, loop);
    EncodeJoin(o.code, Join(Op16(OP_JUMP, Size(r.code)), r.code));
    EncodeJoin(Op16(OP_JUMP, Size(r.code)), r.code);
    WeaveSingle(Encode(o.code), Encode(r.code));
    assert Encode(o.code) + Encode(Op16(OP_JUMP, Size(r.code))) + Encode(r.code)
        == Encode(o.code) + (Encode(Op16(OP_JUMP, Size(r.code))) + Encode(r.code));
    assert (b.code + Encode(o.code))[|b.code|..] == Encode(o.code);
    assert (b.consts + o.consts)[|b.consts|..] == o.consts;
  }

  lemma {:induction false} DefaultPut(body: Stmt, b: Blob, depth: nat, base: nat, loop: Loop, mid: nat, pos: nat)
    requires base <= |b.code|
    ensures var x := StmtPut(body, b, depth, loop, mid); var g := CasesPut(Default(body), b, depth, base, loop, pos);
            if x.None? then g.None? else
            && |b.code| <= |x.value.0.code| && |b.consts| <= |x.value.0.consts|
            && g == Some(Cased(x.value.0.code[|b.code|..], x.value.0.consts[|b.consts|..], map[], |b.code| - base, pos))
  {
    hide GenStmt, Encode;
    var o := GenStmt(body, b.locals, depth, |b.code|, |b.consts|, loop);
    assert (b.code + Encode(o.code))[|b.code|..] == Encode(o.code);
    assert (b.consts + o.consts)[|b.consts|..] == o.consts;
  }

  lemma {:induction false} NoCasePut(b: Blob, depth: nat, base: nat, loop: Loop, pos: nat)
    requires base <= |b.code|
    ensures CasesPut(NoCase, b, depth, base, loop, pos) == Some(Cased([], [], map[], -1, pos))
  {}

  /** The three ways a case list can go on. */
  lemma {:induction false} CasesForm(ts: Tokens, pos: nat, b: Blob, depth: nat, base: nat, loop: Loop)
    requires pos <= |ts| && base <= |b.code|
    ensures var g := CasesGoal(ts, pos, b, depth, base, loop); var t := Peek(ts, pos);
            if t.TRBrace? then g == Some(Cased([], [], map[], -1, pos + 1))
            else if t.TEof? then g == Some(Cased([], [], map[], -1, pos))
            else if t.TWhen? then
              var labels := ParseLabels(ts, pos + 1);
              if labels.None? then g.None? else
              var x := CaseBodyGoal(ts, labels.value.1, b, depth, loop);
              if x.None? then g.None? else
              && |b.code| <= |x.value.0.code| && |b.consts| <= |x.value.0.consts| && x.value.1 <= |ts|
              && g == Prepend([x.value.0.code[|b.code|..]], x.value.0.consts[|b.consts|..],
                              LabelTable(labels.value.0, |b.code| - base),
                              CasesGoal(ts, x.value.1, More(x.value.0, HOLE), depth, base, loop))
            else if t.TDefault? then
              var x := CaseBodyGoal(ts, pos + 1, b, depth, loop);
              if x.None? then g.None? else
              && |b.code| <= |x.value.0.code| && |b.consts| <= |x.value.0.consts|
              && var next := Peek(ts, x.value.1);
                 if !next.TRBrace? && !next.TEof? then g.None? else
                 g == Some(Cased(x.value.0.code[|b.code|..], x.value.0.consts[|b.consts|..], map[], |b.code| - base,
                                 if next.TRBrace? then x.value.1 + 1 else x.value.1))
            else g.None?
  {
    hide ParseLabels, ParseCaseBody, CasesPut, StmtPut, Prepend, LabelTable;
    var t := Peek(ts, pos);
    NoCasePut(b, depth, base, loop, pos);
    NoCasePut(b, depth, base, loop, pos + 1);
    if t.TWhen? {
      var labels := ParseLabels(ts, pos + 1);
      if labels.Some? {
        var body := ParseCaseBody(ts, labels.value.1);
        if body.Some? {
          var rest := ParseCases(ts, body.value.1);
          WhenPut(labels.value.0, body.value.0, if rest.Some? then rest.value.0 else NoCase, b, depth, base, loop, body.value.1,
            if rest.Some? then rest.value.1 else 0);
          var x := StmtPut(body.value.0, b, depth, loop, body.value.1);
          if x.Some? {
            NothingAfter([x.value.0.code[|b.code|..]], x.value.0.consts[|b.consts|..], LabelTable(labels.value.0, |b.code| - base));
          }
        }
      }
    } else if t.TDefault? {
      var body := ParseCaseBody(ts, pos + 1);
      if body.Some? {
        DefaultPut(body.value.0, b, depth, base, loop, body.value.1,
          if Peek(ts, body.value.1).TRBrace? then body.value.1 + 1 else body.value.1);
      }
    }
  }

  lemma {:induction false} UsingForm(ts: Tokens, pos: nat, b: Blob, depth: nat, loop: Loop)
    requires pos < |ts| && ts[pos].TUsing?
    ensures var g := BareGoal(ts, pos, b, depth, loop); var x := ExprGoal(ts, pos + 1, b);
            if x.None? || !Peek(ts, x.value.1).TLBrace? then g.None? else
            var start := SkipLines(ts, x.value.1 + 1); var b1 := More(x.value.0, [OP_SWITCH, 255, 255]);
            && start <= |ts|
            && var c := CasesGoal(ts, start, b1, depth, |b1.code|, loop);
               if c.None? then g.None? else
               var sw := |b1.consts| + |c.value.consts|;
               if sw >= MAX_OPERAND then g.None? else
               g == Some((Blob(x.value.0.code + Encode(Op16(OP_SWITCH, sw)) + c.value.code,
                               b1.consts + c.value.consts + [Switch(c.value.table, c.value.dflt, |c.value.code|)], b.locals),
                          c.value.pos))
  {
    hide ParseExpr, ParseCases, GenStmt, GenExpr, GenCases, ParseBare, Encode, SkipLines, Op16, Join, Size;
    BareIs(ts, pos);
    var e := ParseExpr(ts, pos + 1, PREC_ASSIGNMENT);
    if e.Some? && Peek(ts, e.value.1).TLBrace? {
      var cases := ParseCases(ts, SkipLines(ts, e.value.1 + 1));
      if cases.Some? {
        GenUsing(e.value.0, cases.value.0, b.locals, depth, |b.code|, |b.consts|, loop);
        var a := GenExpr(e.value.0, b.locals, |b.consts|);
        var base := |b.code| + Size(a.code) + 3;
        var c := GenCases(cases.value.0, b.locals, depth, base, base, |b.consts| + |a.consts|, loop);
        UsingLaid(a, c, b);
      }
    }
  }

  lemma {:induction false} UsingLaid(a: Out, c: CasesOut, b: Blob)
    ensures var o := UsingOut(a, c, |b.consts|); var sw := |b.consts| + |a.consts| + |c.consts|;
            && b.code + Encode(o.code) == b.code + Encode(a.code) + Encode(Op16(OP_SWITCH, sw)) + Encode(c.code)
            && b.consts + o.consts == b.consts + a.consts + c.consts + [Switch(c.table, c.dfltJump, |Encode(c.code)|)]
  {
    hide Encode, Op16, Join;
    var sw := |b.consts| + |a.consts| + |c.consts|;
    EncodeJoin(a.code, Join(Op16(OP_SWITCH, sw), c.code));
    EncodeJoin(Op16(OP_SWITCH, sw), c.code);
  }

  // ----- functions -----

  ghost function FunctionGoal(ts: Tokens): Option<(seq<byte>, seq<Const>)> {
    var r := ParseFunction(ts);
    if r.None? then None else
    var o := GenFunction(r.value.0);
    if o.ok then Some((Encode(o.code), o.consts)) else None
  }

  lemma {:induction false} FunctionForm(ts: Tokens)
    ensures var g := FunctionGoal(ts);
            if !Peek(ts, 0).TLParen? then g.None? else
            var params := if Peek(ts, 1).TRParen? then Some(([], 1)) else ParseParams(ts, 1);
            if params.None? || !Peek(ts, params.value.1).TRParen? then g.None? else
            var locals := ParamLocals(params.value.0);
            if !DistinctNames(params.value.0) || |locals| > MAX_LOCALS then g.None? else
            var open := SkipLines(ts, params.value.1 + 1);
            if !Peek(ts, open).TLBrace? then g.None? else
            && open < |ts|
            && var start := SkipLines(ts, open + 1);
               var ds := DeclsGoal(ts, start, Blob([], [], locals), 1, NO_LOOP);
               if ds.None? || !Peek(ts, ds.value.1).TRBrace? then g.None?
               else g == Some((ds.value.0.code + [OP_EMPTY, OP_RETURN], ds.value.0.consts))
  {
    hide ParseParams, ParseDecls, GenDecls, Encode, Join, Op, ParamLocals, DistinctNames, SkipLines;
    if Peek(ts, 0).TLParen? {
      var params := if Peek(ts, 1).TRParen? then Some(([], 1)) else ParseParams(ts, 1);
      if params.Some? && Peek(ts, params.value.1).TRParen? {
        var open := SkipLines(ts, params.value.1 + 1);
        if Peek(ts, open).TLBrace? {
          var ds := ParseDecls(ts, SkipLines(ts, open + 1));
          if ds.Some? {
            var o := GenDecls(ds.value.0, ParamLocals(params.value.0), 1, 0, 0, NO_LOOP);
            EncodeJoin(o.code, Join(Op(OP_EMPTY), Op(OP_RETURN)));
            EncodeEmptyReturn();
            assert [] + Encode(o.code) == Encode(o.code) && [] + o.consts == o.consts;
          }
        }
      }
    }
  }
}
