/** Printing an expression with only the parentheses the precedence table calls for, and
    reading it back: no shorter text reads as the same expression. */
module Printing {
  import opened Basics
  import opened Values
  import opened Syntax
  import opened Grammar

  /** The loosest context in which `e` needs no parentheses. */
  function Level(e: Expr): (n: nat)
    ensures PREC_ASSIGNMENT <= n <= PREC_UNARY
  {
    match e
    case Assign(_, _) => PREC_ASSIGNMENT
    case Update(_, _, _) => PREC_ASSIGNMENT
    case Step(_, _) => PREC_ASSIGNMENT
    case Cond(_, _, _) => PREC_CONDITIONAL
    case Or(_, _) => PREC_OR
    case And(_, _) => PREC_AND
    case Binary(op, _, _) => BinPrec(op)
    case _ => PREC_UNARY
  }

  /** Whether `e` needs parentheses where the parser stands at `p` and operators must bind at
      least as tightly as `q`. A step needs them only where assignment is not allowed. */
  predicate Parens(e: Expr, p: nat, q: nat) {
    if e.Step? then p > PREC_ASSIGNMENT else Level(e) < q
  }

  /** `e` as it is written there: binary operators nest to the left, `and`, `or` and `?:` to the
      right, and a left operand is read where the whole is. */
  function Print(e: Expr, p: nat, q: nat): Tokens
    decreases e, 1
  {
    if Parens(e, p, q) then [TLParen] + Bare(e, PREC_ASSIGNMENT) + [TRParen] else Bare(e, p)
  }

  /** An operand read for itself. */
  function Operand(e: Expr, p: nat): Tokens
    decreases e, 2
  {
    Print(e, p, p)
  }

  function Bare(e: Expr, p: nat): Tokens
    decreases e, 0
  {
    match e
    case Lit(l) => [TLiteral(l)]
    case Var(x) => [TIdentifier(x)]
    case Assign(x, r) => [TIdentifier(x), TEqual] + Operand(r, PREC_ASSIGNMENT)
    case Update(x, op, r) => [TIdentifier(x), TAssign(op)] + Operand(r, PREC_ASSIGNMENT)
    case Step(x, up) => [TIdentifier(x), if up then TIncrement else TDecrement]
    case Unary(op, a) => [UnToken(op)] + Operand(a, PREC_UNARY)
    case Binary(op, l, r) => Print(l, p, BinPrec(op)) + [TBinary(op)] + Operand(r, BinPrec(op) + 1)
    case And(l, r) => Print(l, p, PREC_AND + 1) + [TAnd] + Operand(r, PREC_AND)
    case Or(l, r) => Print(l, p, PREC_OR + 1) + [TOr] + Operand(r, PREC_OR)
    case Cond(c, t, f) =>
      Print(c, p, PREC_CONDITIONAL + 1) + [TQuestion] + Operand(t, PREC_CONDITIONAL) + [TColon] + Operand(f, PREC_ASSIGNMENT)
  }

  function UnToken(op: UnOp): Token {
    match op
    case Not => TBang
    case BitNot => TTilde
    case Negate => TBinary(Sub)
    case UPlus => TBinary(Add)
  }

  /** `list` stands in `ts` at `pos`. */
  ghost predicate Shows(ts: Tokens, pos: nat, list: Tokens) {
    pos + |list| <= |ts| && ts[pos..pos + |list|] == list
  }

  lemma {:induction false} ShowsSplit(ts: Tokens, pos: nat, a: Tokens, b: Tokens)
    requires Shows(ts, pos, a + b)
    ensures Shows(ts, pos, a) && Shows(ts, pos + |a|, b)
  {
    var all := ts[pos..pos + |a + b|];
    assert ts[pos..pos + |a|] == all[..|a|];
    assert ts[pos + |a|..pos + |a| + |b|] == all[|a|..];
  }

  /** A token that an operand parsed at `tail` does not swallow. */
  ghost predicate Stops(t: Token, prec: nat, tail: nat) {
    && Prec(t) < tail
    && (prec <= PREC_ASSIGNMENT || tail <= PREC_CONDITIONAL ==> !AssignLike(t))
  }

  /** How greedy the right end of `e` is when it is written without parentheses. */
  function Tail(e: Expr): nat {
    match e
    case Assign(_, _) => PREC_ASSIGNMENT
    case Update(_, _, _) => PREC_ASSIGNMENT
    case Step(_, _) => PREC_CALL + 1
    case Cond(_, _, _) => PREC_ASSIGNMENT
    case Or(_, _) => PREC_OR
    case And(_, _) => PREC_AND
    case Binary(op, _, _) => BinPrec(op) + 1
    case Unary(_, _) => PREC_UNARY
    case _ => PREC_CALL + 1
  }

  ghost predicate StopsOperand(t: Token, e: Expr, p: nat, q: nat) {
    Stops(t, p, if Parens(e, p, q) then PREC_CALL + 1 else Tail(e))
  }

  lemma {:induction false} BareFirst(e: Expr, p: nat, q: nat)
    ensures |Print(e, p, q)| > 0 && !Print(e, p, q)[0].TNewline? && |Bare(e, p)| > 0 && !Bare(e, p)[0].TNewline?
    decreases e
  {
    match e
    case Binary(op, l, r) => BareFirst(l, p, BinPrec(op));
    case And(l, r) => BareFirst(l, p, PREC_AND + 1);
    case Or(l, r) => BareFirst(l, p, PREC_OR + 1);
    case Cond(c, t, f) => BareFirst(c, p, PREC_CONDITIONAL + 1);
    case _ =>
  }

  /** Printed expressions start with a token, so no newline is skipped before them. */
  lemma {:induction false} NoLines(ts: Tokens, pos: nat, e: Expr, p: nat)
    requires Shows(ts, pos, Operand(e, p))
    ensures pos < |ts| && SkipLines(ts, pos) == pos
  {
    hide Print;
    BareFirst(e, p, p);
    assert ts[pos..pos + |Operand(e, p)|][0] == ts[pos];
  }

  // ----- reading back -----

  /** Where the parse goes on once the prefix at `pos` has produced `left`. */
  lemma {:induction false} AfterPrefix(ts: Tokens, pos: nat, prec: nat, left: Expr, next: nat)
    requires pos < |ts| && SkipLines(ts, pos) == pos && ParsePrefix(ts, pos, prec) == Some((left, next))
    ensures ParseExpr(ts, pos, prec) == ParseInfix(ts, next, prec, left)
  {
    hide ParsePrefix, ParseInfix;
  }

  /** A token that binds too loosely ends the expression. */
  lemma {:induction false} InfixStops(ts: Tokens, pos: nat, prec: nat, left: Expr)
    requires pos <= |ts| && Stops(Peek(ts, pos), prec, prec)
    ensures ParseInfix(ts, pos, prec, left) == Some((left, pos))
  {}

  /** Parsing at `p <= q` reads back what was printed for `p` and `q` and then carries on, as if
      `e` had been a single operand, with whatever follows. */
  lemma {:induction false} ReadsOperand(ts: Tokens, pos: nat, e: Expr, p: nat, q: nat)
    requires PREC_ASSIGNMENT <= p <= q <= PREC_UNARY && Shows(ts, pos, Print(e, p, q))
    requires StopsOperand(Peek(ts, pos + |Print(e, p, q)|), e, p, q)
    ensures ParseExpr(ts, pos, p) == ParseInfix(ts, pos + |Print(e, p, q)|, p, e)
    decreases e, 3
  {
    hide ParseInfix, ParseExpr, ParsePrefix, Bare;
    if Parens(e, p, q) {
      ReadsParens(ts, pos, e, p);
    } else {
      ReadsBare(ts, pos, e, p);
    }
  }

  lemma {:induction false} ReadsParens(ts: Tokens, pos: nat, e: Expr, p: nat)
    requires PREC_ASSIGNMENT <= p && Shows(ts, pos, [TLParen] + Bare(e, PREC_ASSIGNMENT) + [TRParen])
    ensures ParseExpr(ts, pos, p) == ParseInfix(ts, pos + |Bare(e, PREC_ASSIGNMENT)| + 2, p, e)
    decreases e, 2
  {
    hide ParseInfix, ParseExpr, Bare;
    var bare := Bare(e, PREC_ASSIGNMENT);
    ShowsSplit(ts, pos, [TLParen] + bare, [TRParen]);
    ShowsSplit(ts, pos, [TLParen], bare);
    var close := pos + 1 + |bare|;
    assert ts[pos] == ts[pos..pos + 1][0] && ts[close] == ts[close..close + 1][0];
    assert Operand(e, PREC_ASSIGNMENT) == bare;
    NoLines(ts, pos + 1, e, PREC_ASSIGNMENT);
    ReadsBare(ts, pos + 1, e, PREC_ASSIGNMENT);
    InfixStops(ts, close, PREC_ASSIGNMENT, e);
    assert ParsePrefix(ts, pos, p) == Some((e, close + 1));
    AfterPrefix(ts, pos, p, e, close + 1);
  }

  lemma {:induction false} ReadsBare(ts: Tokens, pos: nat, e: Expr, p: nat)
    requires PREC_ASSIGNMENT <= p <= Level(e) && Shows(ts, pos, Bare(e, p))
    requires Stops(Peek(ts, pos + |Bare(e, p)|), p, Tail(e))
    ensures ParseExpr(ts, pos, p) == ParseInfix(ts, pos + |Bare(e, p)|, p, e)
    decreases e, 1
  {
    hide ParseInfix, ParseExpr, ParsePrefix, Print;
    match e
    case Lit(l) => ReadsAtom(ts, pos, e, p);
    case Var(x) => ReadsAtom(ts, pos, e, p);
    case Step(x, up) => ReadsAtom(ts, pos, e, p);
    case Assign(x, r) => ReadsAssign(ts, pos, e, x, TEqual, r);
    case Update(x, op, r) => ReadsAssign(ts, pos, e, x, TAssign(op), r);
    case Unary(op, a) => ReadsUnary(ts, pos, op, a, p);
    case Binary(op, l, r) => ReadsPair(ts, pos, e, l, TBinary(op), r, p, BinPrec(op), BinPrec(op) + 1);
    case And(l, r) => ReadsPair(ts, pos, e, l, TAnd, r, p, PREC_AND + 1, PREC_AND);
    case Or(l, r) => ReadsPair(ts, pos, e, l, TOr, r, p, PREC_OR + 1, PREC_OR);
    case Cond(c, t, f) => ReadsCond(ts, pos, c, t, f, p);
  }

  lemma {:induction false} ReadsAtom(ts: Tokens, pos: nat, e: Expr, p: nat)
    requires e.Lit? || e.Var? || e.Step?
    requires PREC_ASSIGNMENT <= p <= Level(e) && Shows(ts, pos, Bare(e, p))
    requires Stops(Peek(ts, pos + |Bare(e, p)|), p, Tail(e))
    ensures ParseExpr(ts, pos, p) == ParseInfix(ts, pos + |Bare(e, p)|, p, e)
  {
    hide ParseInfix, ParseExpr;
    var here := ts[pos..pos + |Bare(e, p)|];
    assert here[0] == ts[pos];
    if e.Step? { assert here[1] == ts[pos + 1]; }
    assert ParsePrefix(ts, pos, p) == Some((e, pos + |Bare(e, p)|));
    AfterPrefix(ts, pos, p, e, pos + |Bare(e, p)|);
  }

  /** An operand that is printed and parsed in the same context ends where it was printed. */
  lemma {:induction false} ReadsWhole(ts: Tokens, pos: nat, e: Expr, p: nat)
    requires PREC_ASSIGNMENT <= p <= PREC_UNARY && Shows(ts, pos, Operand(e, p))
    requires Stops(Peek(ts, pos + |Operand(e, p)|), p, p)
    ensures ParseExpr(ts, pos, p) == Some((e, pos + |Operand(e, p)|))
    decreases e, 4
  {
    hide ParseInfix, ParseExpr, ParsePrefix, Print;
    TailTight(e, p);
    ReadsOperand(ts, pos, e, p, p);
    InfixStops(ts, pos + |Operand(e, p)|, p, e);
  }

  /** What stops an operand at `p` also stops every greedy right end inside it. */
  lemma {:induction false} TailTight(e: Expr, p: nat)
    requires PREC_ASSIGNMENT <= p <= PREC_UNARY
    ensures forall t :: Stops(t, p, p) ==> StopsOperand(t, e, p, p)
  {}

  lemma {:induction false} ReadsAssign(ts: Tokens, pos: nat, e: Expr, x: string, t: Token, r: Expr)
    requires (e == Assign(x, r) && t == TEqual) || (e.Update? && e == Update(x, e.aop, r) && t == TAssign(e.aop))
    requires Shows(ts, pos, [TIdentifier(x), t] + Operand(r, PREC_ASSIGNMENT))
    requires Stops(Peek(ts, pos + 2 + |Operand(r, PREC_ASSIGNMENT)|), PREC_ASSIGNMENT, PREC_ASSIGNMENT)
    ensures ParseExpr(ts, pos, PREC_ASSIGNMENT) == ParseInfix(ts, pos + 2 + |Operand(r, PREC_ASSIGNMENT)|, PREC_ASSIGNMENT, e)
    decreases e, 0
  {
    hide ParseInfix, ParseExpr, Operand;
    ShowsSplit(ts, pos, [TIdentifier(x), t], Operand(r, PREC_ASSIGNMENT));
    var here := ts[pos..pos + 2];
    assert here[0] == ts[pos] && here[1] == ts[pos + 1];
    ReadsWhole(ts, pos + 2, r, PREC_ASSIGNMENT);
    var next := pos + 2 + |Operand(r, PREC_ASSIGNMENT)|;
    assert ParsePrefix(ts, pos, PREC_ASSIGNMENT) == Some((e, next));
    AfterPrefix(ts, pos, PREC_ASSIGNMENT, e, next);
  }

  lemma {:induction false} ReadsUnary(ts: Tokens, pos: nat, op: UnOp, a: Expr, p: nat)
    requires PREC_ASSIGNMENT <= p <= PREC_UNARY && Shows(ts, pos, [UnToken(op)] + Operand(a, PREC_UNARY))
    requires Stops(Peek(ts, pos + 1 + |Operand(a, PREC_UNARY)|), p, PREC_UNARY)
    ensures ParseExpr(ts, pos, p) == ParseInfix(ts, pos + 1 + |Operand(a, PREC_UNARY)|, p, Unary(op, a))
    decreases Unary(op, a), 0
  {
    hide ParseInfix, ParseExpr, Operand;
    ShowsSplit(ts, pos, [UnToken(op)], Operand(a, PREC_UNARY));
    assert ts[pos] == ts[pos..pos + 1][0];
    ReadsWhole(ts, pos + 1, a, PREC_UNARY);
    var next := pos + 1 + |Operand(a, PREC_UNARY)|;
    assert ParsePrefix(ts, pos, p) == Some((Unary(op, a), next));
    AfterPrefix(ts, pos, p, Unary(op, a), next);
  }

  /** Two operands around an infix token: the left one printed at `lq`, the right at `rq`. */
  lemma {:induction false} ReadsPair(ts: Tokens, pos: nat, e: Expr, l: Expr, t: Token, r: Expr, p: nat, lq: nat, rq: nat)
    requires || (t.TBinary? && e == Binary(t.bop, l, r) && lq == BinPrec(t.bop) && rq == lq + 1)
             || (t == TAnd && e == And(l, r) && lq == PREC_AND + 1 && rq == PREC_AND)
             || (t == TOr && e == Or(l, r) && lq == PREC_OR + 1 && rq == PREC_OR)
    requires PREC_ASSIGNMENT <= p <= Level(e) && Shows(ts, pos, Print(l, p, lq) + [t] + Operand(r, rq))
    requires Stops(Peek(ts, pos + |Print(l, p, lq)| + 1 + |Operand(r, rq)|), p, rq)
    ensures ParseExpr(ts, pos, p) == ParseInfix(ts, pos + |Print(l, p, lq)| + 1 + |Operand(r, rq)|, p, e)
    decreases e, 0
  {
    hide ParseExpr, ParsePrefix, ParseInfix, Print, Operand;
    ShowsSplit(ts, pos, Print(l, p, lq) + [t], Operand(r, rq));
    ShowsSplit(ts, pos, Print(l, p, lq), [t]);
    var mid := pos + |Print(l, p, lq)|;
    assert ts[mid] == ts[mid..mid + 1][0];
    LeftStops(l, t, p, lq);
    ReadsOperand(ts, pos, l, p, lq);
    ReadsWhole(ts, mid + 1, r, rq);
    InfixPair(ts, mid, p, l, r, rq, mid + 1 + |Operand(r, rq)|, e);
  }

  lemma {:induction false} LeftStops(l: Expr, t: Token, p: nat, lq: nat)
    requires !AssignLike(t) && (if t.TBinary? then Prec(t) == lq else Prec(t) < lq) && PREC_OR <= lq
    ensures StopsOperand(t, l, p, lq)
  {}

  lemma {:induction false} CondShows(ts: Tokens, pos: nat, c: Tokens, t: Tokens, f: Tokens)
    requires Shows(ts, pos, c + [TQuestion] + t + [TColon] + f)
    ensures var ask := pos + |c|; var colon := ask + 1 + |t|;
            && Shows(ts, pos, c) && Shows(ts, ask + 1, t) && Shows(ts, colon + 1, f)
            && ts[ask] == TQuestion && ts[colon] == TColon
  {
    hide Shows;
    ShowsSplit(ts, pos, c + [TQuestion] + t + [TColon], f);
    ShowsSplit(ts, pos, c + [TQuestion] + t, [TColon]);
    ShowsSplit(ts, pos, c + [TQuestion], t);
    ShowsSplit(ts, pos, c, [TQuestion]);
    ShowsOne(ts, pos + |c|, TQuestion);
    ShowsOne(ts, pos + |c| + 1 + |t|, TColon);
  }

  lemma {:induction false} ShowsOne(ts: Tokens, pos: nat, t: Token)
    requires Shows(ts, pos, [t])
    ensures pos < |ts| && ts[pos] == t
  {
    assert ts[pos] == ts[pos..pos + 1][0];
  }

  lemma {:induction false} ReadsCond(ts: Tokens, pos: nat, c: Expr, t: Expr, f: Expr, p: nat)
    requires PREC_ASSIGNMENT <= p <= PREC_CONDITIONAL && Shows(ts, pos, Bare(Cond(c, t, f), p))
    requires Stops(Peek(ts, pos + |Bare(Cond(c, t, f), p)|), p, PREC_ASSIGNMENT)
    ensures ParseExpr(ts, pos, p) == ParseInfix(ts, pos + |Bare(Cond(c, t, f), p)|, p, Cond(c, t, f))
    decreases Cond(c, t, f), 0
  {
    hide ParseExpr, ParsePrefix, ParseInfix, Print, Operand, Shows, Tail, Level;
    var pc, pt, pf := Print(c, p, PREC_CONDITIONAL + 1), Operand(t, PREC_CONDITIONAL), Operand(f, PREC_ASSIGNMENT);
    var ask := pos + |pc|;
    var colon := ask + 1 + |pt|;
    CondShows(ts, pos, pc, pt, pf);
    LeftStops(c, TQuestion, p, PREC_CONDITIONAL + 1);
    ReadsOperand(ts, pos, c, p, PREC_CONDITIONAL + 1);
    NoLines(ts, ask + 1, t, PREC_CONDITIONAL);
    ReadsWhole(ts, ask + 1, t, PREC_CONDITIONAL);
    NoLines(ts, colon + 1, f, PREC_ASSIGNMENT);
    ReadsWhole(ts, colon + 1, f, PREC_ASSIGNMENT);
    InfixCond(ts, ask, p, c, t, f, colon, colon + 1 + |pf|);
  }

  /** Reading a printed expression consumes exactly its tokens and gives the same tree. */
  lemma {:induction false} RoundTrip(e: Expr, before: Tokens, after: Tokens)
    requires after == [] || (Prec(after[0]) == PREC_NONE && !AssignLike(after[0]))
    ensures var text := Operand(e, PREC_ASSIGNMENT);
            ParseExpr(before + text + after, |before|, PREC_ASSIGNMENT) == Some((e, |before| + |text|))
  {
    hide ParseExpr, Operand;
    var text := Operand(e, PREC_ASSIGNMENT);
    var ts := before + text + after;
    assert ts[|before|..|before| + |text|] == text;
    ReadsWhole(ts, |before|, e, PREC_ASSIGNMENT);
  }

  // ----- nothing shorter reads the same -----

  /** `n` tokens have been read as `e`, before the token `t`, by a parser at `p`: either in
      parentheses, or as an operand that `t` could not have joined. */
  ghost predicate Long(e: Expr, p: nat, n: int, t: Token) {
    || n >= |Bare(e, PREC_ASSIGNMENT)| + 2
    || (n >= |Bare(e, p)| && p <= Level(e) && Prec(t) < Tail(e))
  }

  /** A step in parentheses is no shorter than without. */
  lemma {:induction false} LooserIsShorter(e: Expr, p: nat)
    requires p >= PREC_ASSIGNMENT
    ensures |Bare(e, PREC_ASSIGNMENT)| <= |Bare(e, p)|
    decreases e
  {
    match e
    case Binary(op, l, r) => LooserIsShorter(l, p);
    case And(l, r) => LooserIsShorter(l, p);
    case Or(l, r) => LooserIsShorter(l, p);
    case Cond(c, t, f) => LooserIsShorter(c, p);
    case _ =>
  }

  lemma {:induction false} TighterBy2(e: Expr, p: nat)
    requires p >= PREC_ASSIGNMENT
    ensures |Bare(e, p)| <= |Bare(e, PREC_ASSIGNMENT)| + 2
    decreases e, 0
  {
    match e
    case Binary(op, l, r) => TighterPrint(l, p, BinPrec(op));
    case And(l, r) => TighterPrint(l, p, PREC_AND + 1);
    case Or(l, r) => TighterPrint(l, p, PREC_OR + 1);
    case Cond(c, t, f) => TighterPrint(c, p, PREC_CONDITIONAL + 1);
    case _ =>
  }

  lemma {:induction false} TighterPrint(e: Expr, p: nat, q: nat)
    requires p >= PREC_ASSIGNMENT && q > PREC_ASSIGNMENT
    ensures |Print(e, p, q)| <= |Print(e, PREC_ASSIGNMENT, q)| + 2
    decreases e, 1
  {
    if !Parens(e, p, q) { TighterBy2(e, p); }
  }

  /** What has been read is at least as long as the printed operand it becomes. */
  lemma {:induction false} LongPrinted(e: Expr, p: nat, q: nat, n: int, t: Token)
    requires PREC_ASSIGNMENT <= p <= q <= PREC_UNARY && Long(e, p, n, t) && q <= Prec(t) + 1
    requires e.Binary? ==> q <= Prec(t) || q <= Level(e)
    ensures n >= |Print(e, p, q)|
  {
    TighterBy2(e, p);
    LooserIsShorter(e, p);
  }

  lemma {:induction false} LongWhole(e: Expr, p: nat, n: int, t: Token)
    requires PREC_ASSIGNMENT <= p <= PREC_UNARY && Long(e, p, n, t)
    ensures n >= |Operand(e, p)|
  {
    TighterBy2(e, p);
    LooserIsShorter(e, p);
  }

  /** Whatever the parser reads as `e` is at least as long as the text printed for `e`. */
  lemma {:induction false} ExprLong(ts: Tokens, pos: nat, p: nat)
    requires PREC_ASSIGNMENT <= p <= PREC_UNARY
    ensures var r := ParseExpr(ts, pos, p);
            r.Some? ==> r.value.1 - pos >= |Operand(r.value.0, p)| && Prec(Peek(ts, r.value.1)) < p
    decreases |ts| - pos, 3
  {
    hide ParsePrefix, ParseInfix, Operand, Prec, Long;
    var start := SkipLines(ts, pos);
    if start < |ts| {
      PrefixLong(ts, start, p);
      var left := ParsePrefix(ts, start, p);
      if left.Some? { InfixLong(ts, start, left.value.1, p, left.value.0); }
    }
  }

  lemma {:induction false} PrefixLong(ts: Tokens, pos: nat, p: nat)
    requires PREC_ASSIGNMENT <= p <= PREC_UNARY && pos < |ts|
    ensures var r := ParsePrefix(ts, pos, p);
            r.Some? ==> Long(r.value.0, p, r.value.1 - pos, Peek(ts, r.value.1))
    decreases |ts| - pos, 2
  {
    hide ParseExpr, SkipLines;
    var t := ts[pos];
    if t.TLiteral? {
      AtomLong(Lit(t.lit), p, Peek(ts, pos + 1));
    } else if t.TIdentifier? {
      AtomLong(Var(t.name), p, Peek(ts, pos + 1));
      if p <= PREC_ASSIGNMENT && AssignLike(Peek(ts, pos + 1)) {
        ExprLong(ts, pos + 2, PREC_ASSIGNMENT);
        StoreLong(ts, pos, t.name);
      }
    } else if t == TLParen {
      var at := SkipLines(ts, pos + 1);
      ExprLong(ts, at, PREC_ASSIGNMENT);
      var inner := ParseExpr(ts, at, PREC_ASSIGNMENT);
      if inner.Some? { OperandBare(inner.value.0); }
    } else if PrefixOp(t).Some? {
      ExprLong(ts, pos + 1, PREC_UNARY);
      var a := ParseExpr(ts, pos + 1, PREC_UNARY);
      if a.Some? { UnaryLong(PrefixOp(t).value, a.value.0, p); }
    }
  }

  lemma {:induction false} AtomLong(e: Expr, p: nat, t: Token)
    requires (e.Lit? || e.Var?) && p <= PREC_UNARY
    ensures Long(e, p, 1, t)
  {}

  lemma {:induction false} OperandBare(e: Expr)
    ensures Operand(e, PREC_ASSIGNMENT) == Bare(e, PREC_ASSIGNMENT)
  {}

  lemma {:induction false} UnaryLong(op: UnOp, a: Expr, p: nat)
    ensures |Bare(Unary(op, a), p)| == 1 + |Operand(a, PREC_UNARY)|
  {}

  lemma {:induction false} StoreLong(ts: Tokens, pos: nat, x: string)
    requires pos + 1 < |ts| && ts[pos] == TIdentifier(x) && AssignLike(ts[pos + 1])
    requires var r := ParseExpr(ts, pos + 2, PREC_ASSIGNMENT);
             r.Some? ==> r.value.1 - (pos + 2) >= |Operand(r.value.0, PREC_ASSIGNMENT)| && Prec(Peek(ts, r.value.1)) < PREC_ASSIGNMENT
    ensures var r := ParsePrefix(ts, pos, PREC_ASSIGNMENT);
            r.Some? ==> Long(r.value.0, PREC_ASSIGNMENT, r.value.1 - pos, Peek(ts, r.value.1))
  {
    hide ParseExpr, Operand, Prec, Print;
    var t := ts[pos + 1];
    if t.TIncrement? || t.TDecrement? { PrecBound(Peek(ts, pos + 2)); }
  }

  lemma {:induction false} PrecBound(t: Token)
    ensures Prec(t) < PREC_CALL + 1
  {}

  /** `left` was read from `start` to `pos`. */
  lemma {:induction false} InfixLong(ts: Tokens, start: nat, pos: nat, p: nat, left: Expr)
    requires PREC_ASSIGNMENT <= p <= PREC_UNARY && start <= pos <= |ts| && Long(left, p, pos - start, Peek(ts, pos))
    ensures var r := ParseInfix(ts, pos, p, left);
            r.Some? ==> r.value.1 - start >= |Operand(r.value.0, p)| && Prec(Peek(ts, r.value.1)) < p
    decreases |ts| - pos, 1
  {
    hide ParseExpr, SkipLines, Operand, Long;
    var t := Peek(ts, pos);
    if Prec(t) < p || Prec(t) == PREC_NONE {
      LongWhole(left, p, pos - start, t);
    } else {
      match t
      case TBinary(op) => PairLong(ts, start, pos, p, left, BinPrec(op), BinPrec(op) + 1);
      case TAnd => PairLong(ts, start, pos, p, left, PREC_AND + 1, PREC_AND);
      case TOr => PairLong(ts, start, pos, p, left, PREC_OR + 1, PREC_OR);
      case TQuestion => CondLong(ts, start, pos, p, left);
      case _ =>
    }
  }

  lemma {:induction false} PairLong(ts: Tokens, start: nat, pos: nat, p: nat, left: Expr, lq: nat, rq: nat)
    requires PREC_ASSIGNMENT <= p <= PREC_UNARY && start <= pos < |ts| && Long(left, p, pos - start, ts[pos]) && p <= Prec(ts[pos])
    requires || (ts[pos].TBinary? && lq == BinPrec(ts[pos].bop) && rq == lq + 1)
             || (ts[pos] == TAnd && lq == PREC_AND + 1 && rq == PREC_AND)
             || (ts[pos] == TOr && lq == PREC_OR + 1 && rq == PREC_OR)
    ensures var r := ParseInfix(ts, pos, p, left);
            r.Some? ==> r.value.1 - start >= |Operand(r.value.0, p)| && Prec(Peek(ts, r.value.1)) < p
    decreases |ts| - pos, 0
  {
    hide ParseExpr, ParsePrefix, ParseInfix, Operand, Print;
    var t := ts[pos];
    ExprLong(ts, pos + 1, rq);
    LongPrinted(left, p, lq, pos - start, t);
    var r := ParseExpr(ts, pos + 1, rq);
    if r.None? {
      NoPair(ts, pos, p, left, rq);
    } else {
      var e := if t.TBinary? then Binary(t.bop, left, r.value.0) else if t == TAnd then And(left, r.value.0) else Or(left, r.value.0);
      InfixPair(ts, pos, p, left, r.value.0, rq, r.value.1, e);
      InfixLong(ts, start, r.value.1, p, e);
    }
  }

  lemma {:induction false} NoPair(ts: Tokens, pos: nat, p: nat, left: Expr, rq: nat)
    requires pos < |ts| && PREC_ASSIGNMENT <= p <= Prec(ts[pos]) && ParseExpr(ts, pos + 1, rq).None?
    requires (ts[pos].TBinary? && rq == BinPrec(ts[pos].bop) + 1) || (ts[pos] == TAnd && rq == PREC_AND) || (ts[pos] == TOr && rq == PREC_OR)
    ensures ParseInfix(ts, pos, p, left).None?
  {
    hide ParseExpr, ParsePrefix;
  }

  lemma {:induction false} CondLong(ts: Tokens, start: nat, pos: nat, p: nat, left: Expr)
    requires PREC_ASSIGNMENT <= p <= PREC_CONDITIONAL && start <= pos < |ts| && Long(left, p, pos - start, ts[pos]) && ts[pos] == TQuestion
    ensures var r := ParseInfix(ts, pos, p, left);
            r.Some? ==> r.value.1 - start >= |Operand(r.value.0, p)| && Prec(Peek(ts, r.value.1)) < p
    decreases |ts| - pos, 0
  {
    hide ParseExpr, ParsePrefix, ParseInfix, Operand, Print, Bare, SkipLines;
    CondForm(ts, pos, p, left);
    var at := SkipLines(ts, pos + 1);
    ExprLong(ts, at, PREC_CONDITIONAL);
    LongPrinted(left, p, PREC_CONDITIONAL + 1, pos - start, ts[pos]);
    var a := ParseExpr(ts, at, PREC_CONDITIONAL);
    if a.Some? {
      var colon := SkipLines(ts, a.value.1);
      if Peek(ts, colon).TColon? {
        var after := SkipLines(ts, colon + 1);
        ExprLong(ts, after, PREC_ASSIGNMENT);
        var b := ParseExpr(ts, after, PREC_ASSIGNMENT);
        if b.Some? {
          BareCond(left, a.value.0, b.value.0, p);
          InfixLong(ts, start, b.value.1, p, Cond(left, a.value.0, b.value.0));
        }
      }
    }
  }

  lemma {:induction false} CondForm(ts: Tokens, pos: nat, p: nat, left: Expr)
    requires PREC_ASSIGNMENT <= p <= PREC_CONDITIONAL && pos < |ts| && ts[pos] == TQuestion
    ensures var r := ParseInfix(ts, pos, p, left); var a := ParseExpr(ts, SkipLines(ts, pos + 1), PREC_CONDITIONAL);
            if a.None? then r.None? else
            var colon := SkipLines(ts, a.value.1);
            if !Peek(ts, colon).TColon? then r.None? else
            var b := ParseExpr(ts, SkipLines(ts, colon + 1), PREC_ASSIGNMENT);
            if b.None? then r.None? else r == ParseInfix(ts, b.value.1, p, Cond(left, a.value.0, b.value.0))
  {
    hide ParseExpr, ParsePrefix, SkipLines;
  }

  lemma {:induction false} BareCond(c: Expr, t: Expr, f: Expr, p: nat)
    ensures |Bare(Cond(c, t, f), p)| == |Print(c, p, PREC_CONDITIONAL + 1)| + |Operand(t, PREC_CONDITIONAL)| + |Operand(f, PREC_ASSIGNMENT)| + 2
  {
    hide Print, Operand;
  }

  /** No text shorter than the printed one reads as `e`, so every pair of parentheses in it is
      needed. */
  lemma {:induction false} PrintedIsShortest(e: Expr, before: Tokens, text: Tokens, after: Tokens)
    requires ParseExpr(before + text + after, |before|, PREC_ASSIGNMENT) == Some((e, |before| + |text|))
    ensures |text| >= |Operand(e, PREC_ASSIGNMENT)|
  {
    hide ParseExpr, Operand, Prec;
    ExprLong(before + text + after, |before|, PREC_ASSIGNMENT);
  }
}
