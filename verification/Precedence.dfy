/** The grammar of expressions in layers, as one would write it down, and that the precedence table
    of the parser reads exactly it. */
module Precedence {
  import opened Basics
  import opened Syntax
  import opened Grammar

  // ----- the grammar -----

  /** The binary operators, loosest first; those in one layer associate to the left. */
  const LAYERS: seq<set<BinOp>> := [
    {Eq, Ne},
    {Gt, Ge, Lt, Le},
    {BitOr},
    {BitXor},
    {BitAnd},
    {Shl, Shr},
    {BinOp.Range},
    {Add, Sub},
    {Mul, Div, Rem, Pow, FloorDiv}
  ]

  // Each of the following says that the tokens from `i` up to `j` are the expression `e`. An operand may begin on
  // a new line. `loose` tells whether the expression begins where an assignment could: there, a name before an
  // assignment or a step operator belongs to it.

  /** Any expression. */
  ghost predicate IsExpression(ts: Tokens, i: nat, j: nat, e: Expr)
    requires i <= j <= |ts|
    decreases j - i, 20
  {
    var s := SkipLines(ts, i);
    s < j && (IsAssignment(ts, s, j, e) || IsConditional(ts, s, j, e, true))
  }

  /** `x = e` and `x += e`. */
  ghost predicate IsAssignment(ts: Tokens, i: nat, j: nat, e: Expr)
    requires i < j <= |ts|
    decreases j - i, 15
  {
    i + 2 <= j && ts[i].TIdentifier?
    && ((e.Assign? && e.name == ts[i].name && ts[i + 1] == TEqual && IsExpression(ts, i + 2, j, e.rhs))
        || (e.Update? && e.name == ts[i].name && ts[i + 1] == TAssign(e.aop) && IsExpression(ts, i + 2, j, e.rhs)))
  }

  /** `c ? a : b`. */
  ghost predicate IsConditional(ts: Tokens, i: nat, j: nat, e: Expr, loose: bool)
    requires i < j <= |ts|
    decreases j - i, 19
  {
    IsDisjunction(ts, i, j, e, loose)
    || (e.Cond? && exists q: nat, m: nat :: i < q < m < j && IsChoice(ts, i, q, m, j, e, loose))
  }

  /** With the question mark at `q` and the first arm up to `m`. */
  ghost predicate IsChoice(ts: Tokens, i: nat, q: nat, m: nat, j: nat, e: Expr, loose: bool)
    requires i < q < m < j <= |ts| && e.Cond?
    decreases j - i, 18
  {
    var a, colon := SkipLines(ts, q + 1), SkipLines(ts, m);
    && IsDisjunction(ts, i, q, e.cond, loose) && ts[q] == TQuestion
    && a < m && IsConditional(ts, a, m, e.thn, false)
    && colon < j && ts[colon] == TColon && IsExpression(ts, colon + 1, j, e.els)
  }

  /** `a or b or c`, which is `a or (b or c)`. */
  ghost predicate IsDisjunction(ts: Tokens, i: nat, j: nat, e: Expr, loose: bool)
    requires i < j <= |ts|
    decreases j - i, 18
  {
    IsConjunction(ts, i, j, e, loose)
    || (e.Or? && exists q: nat :: i < q < j && ts[q] == TOr && IsConjunction(ts, i, q, e.left, loose)
                                  && var s := SkipLines(ts, q + 1); s < j && IsDisjunction(ts, s, j, e.right, false))
  }

  /** `a and b and c`, which is `a and (b and c)`. */
  ghost predicate IsConjunction(ts: Tokens, i: nat, j: nat, e: Expr, loose: bool)
    requires i < j <= |ts|
    decreases j - i, 17
  {
    IsLayer(ts, 0, i, j, e, loose)
    || (e.And? && exists q: nat :: i < q < j && ts[q] == TAnd && IsLayer(ts, 0, i, q, e.left, loose)
                                   && var s := SkipLines(ts, q + 1); s < j && IsConjunction(ts, s, j, e.right, false))
  }

  /** Operators of layer `k` or a tighter one. */
  ghost predicate IsLayer(ts: Tokens, k: nat, i: nat, j: nat, e: Expr, loose: bool)
    requires i < j <= |ts| && k <= |LAYERS|
    decreases j - i, 16 - k
  {
    if k == |LAYERS| then IsUnary(ts, i, j, e, loose)
    else
      IsLayer(ts, k + 1, i, j, e, loose)
      || (e.Binary? && e.bop in LAYERS[k]
          && exists q: nat :: i < q < j && ts[q] == TBinary(e.bop) && IsLayer(ts, k, i, q, e.left, loose)
                              && var s := SkipLines(ts, q + 1); s < j && IsLayer(ts, k + 1, s, j, e.right, false))
  }

  predicate Prefixes(t: Token, op: UnOp) {
    match op
    case Not => t == TBang
    case BitNot => t == TTilde
    case Negate => t == TBinary(Sub)
    case UPlus => t == TBinary(Add)
  }

  ghost predicate IsUnary(ts: Tokens, i: nat, j: nat, e: Expr, loose: bool)
    requires i < j <= |ts|
    decreases j - i, 6
  {
    IsPrimary(ts, i, j, e, loose)
    || (e.Unary? && Prefixes(ts[i], e.uop) && var s := SkipLines(ts, i + 1); s < j && IsUnary(ts, s, j, e.arg, false))
  }

  /** A literal, a name, a step, or any expression in parentheses. */
  ghost predicate IsPrimary(ts: Tokens, i: nat, j: nat, e: Expr, loose: bool)
    requires i < j <= |ts|
    decreases j - i, 5
  {
    match ts[i]
    case TLParen =>
      exists q: nat :: i < q < j && IsExpression(ts, i + 1, q, e) && SkipLines(ts, q) == j - 1 && ts[j - 1] == TRParen
    case TLiteral(l) => e == Lit(l) && j == i + 1
    case TIdentifier(x) =>
      var next := Peek(ts, i + 1);
      if loose && (next.TEqual? || next.TAssign?) then false
      else if loose && (next.TIncrement? || next.TDecrement?) then e == Step(x, next.TIncrement?) && j == i + 2
      else e == Var(x) && j == i + 1
    case _ => false
  }

  /** A token that ends an expression: no infix operator, question mark, tilde, parenthesis or equals sign. */
  predicate Ends(t: Token) {
    !(t.TBinary? || t.TAnd? || t.TOr? || t.TQuestion? || t.TTilde? || t.TLParen? || t.TEqual?)
  }

  // ----- the table -----

  /** The table puts the operators of layer `k` on the level `k` above equality. */
  lemma {:induction false} LayerOf(op: BinOp, k: nat)
    requires k < |LAYERS|
    ensures op in LAYERS[k] <==> BinPrec(op) == PREC_EQUALITY + k
  {}

  /** The phrase that parsing at a level reads. */
  ghost predicate Derives(ts: Tokens, level: nat, i: nat, j: nat, e: Expr, loose: bool)
    requires i < j <= |ts| && PREC_ASSIGNMENT <= level <= PREC_UNARY
  {
    if level == PREC_ASSIGNMENT then IsConditional(ts, i, j, e, loose) || (loose && IsAssignment(ts, i, j, e))
    else if level == PREC_CONDITIONAL then IsConditional(ts, i, j, e, loose)
    else if level == PREC_OR then IsDisjunction(ts, i, j, e, loose)
    else if level == PREC_AND then IsConjunction(ts, i, j, e, loose)
    else IsLayer(ts, level - PREC_EQUALITY, i, j, e, loose)
  }

  lemma {:induction false} Weaker(ts: Tokens, level: nat, lower: nat, i: nat, j: nat, e: Expr, loose: bool)
    requires i < j <= |ts| && PREC_ASSIGNMENT <= lower <= level <= PREC_UNARY && Derives(ts, level, i, j, e, loose)
    ensures Derives(ts, lower, i, j, e, loose)
    decreases level - lower
  {
    hide IsDisjunction, IsConjunction, IsLayer, IsConditional, IsAssignment;
    if lower < level {
      OneWeaker(ts, level, i, j, e, loose);
      Weaker(ts, level - 1, lower, i, j, e, loose);
    }
  }

  lemma {:induction false} OneWeaker(ts: Tokens, level: nat, i: nat, j: nat, e: Expr, loose: bool)
    requires i < j <= |ts| && PREC_ASSIGNMENT < level <= PREC_UNARY && Derives(ts, level, i, j, e, loose)
    ensures Derives(ts, level - 1, i, j, e, loose)
  {
    if level > PREC_EQUALITY { assert IsLayer(ts, level - 1 - PREC_EQUALITY + 1, i, j, e, loose); }
  }

  // ----- what is parsed is derived -----

  /** What can follow a phrase that the infix loop has at a level. */
  ghost predicate Follows(level: nat, t: Token) {
    if level == PREC_UNARY then true
    else if level >= PREC_EQUALITY then Prec(t) <= level || Prec(t) >= PREC_UNARY
    else if level >= PREC_OR then Prec(t) < level || Prec(t) >= PREC_UNARY
    else Ends(t)
  }

  lemma {:induction false} EndsIs(t: Token)
    ensures Ends(t) <==> Prec(t) == PREC_NONE && !t.TEqual?
  {}

  lemma {:induction false} SkipTwice(ts: Tokens, pos: nat)
    ensures SkipLines(ts, SkipLines(ts, pos)) == SkipLines(ts, pos)
  {}

  /** Parsing at any level reads a phrase of that level, and stops before a token that binds more loosely. */
  lemma {:induction false} Sound(ts: Tokens, pos: nat, p: nat)
    requires PREC_ASSIGNMENT <= p <= PREC_UNARY && ParseExpr(ts, pos, p).Some?
    ensures var (e, q) := ParseExpr(ts, pos, p).value; var s := SkipLines(ts, pos);
            && s < q <= |ts| && Derives(ts, p, s, q, e, p == PREC_ASSIGNMENT)
            && Prec(Peek(ts, q)) < p && (p == PREC_ASSIGNMENT ==> Ends(Peek(ts, q)))
    decreases |ts| - pos, 5
  {
    hide ParsePrefix, ParseInfix, IsDisjunction, IsConjunction, IsLayer, IsConditional, IsAssignment, Derives;
    var s := SkipLines(ts, pos);
    var left := ParsePrefix(ts, s, p);
    SoundPrefix(ts, s, p);
    var (l, n) := left.value;
    if p == PREC_ASSIGNMENT && !Derives(ts, PREC_UNARY, s, n, l, true) {
      SoundInfix(ts, s, n, p, l, PREC_ASSIGNMENT);
    } else {
      SoundInfix(ts, s, n, p, l, PREC_UNARY);
    }
  }

  lemma {:induction false} SoundPrefix(ts: Tokens, i: nat, p: nat)
    requires i < |ts| && PREC_ASSIGNMENT <= p <= PREC_UNARY && ParsePrefix(ts, i, p).Some?
    ensures var (l, n) := ParsePrefix(ts, i, p).value; var loose := p == PREC_ASSIGNMENT;
            && i < n <= |ts|
            && (Derives(ts, PREC_UNARY, i, n, l, loose)
                || (loose && Derives(ts, PREC_ASSIGNMENT, i, n, l, true) && Ends(Peek(ts, n))))
    decreases |ts| - i, 1
  {
    hide ParsePrefix, Derives, Ends;
    match ts[i]
    case TLiteral(_) => SoundLiteral(ts, i, p);
    case TIdentifier(_) => SoundName(ts, i, p);
    case TLParen => SoundParens(ts, i, p);
    case _ => SoundOperator(ts, i, p);
  }

  lemma {:induction false} SoundLiteral(ts: Tokens, i: nat, p: nat)
    requires i < |ts| && ts[i].TLiteral?
    ensures ParsePrefix(ts, i, p) == Some((Lit(ts[i].lit), i + 1)) && Derives(ts, PREC_UNARY, i, i + 1, Lit(ts[i].lit), p == PREC_ASSIGNMENT)
  {
    hide ParseExpr, ParseInfix, Derives, IsExpression;
    UnaryIs(ts, i, i + 1, Lit(ts[i].lit), p == PREC_ASSIGNMENT);
  }

  lemma {:induction false} SoundName(ts: Tokens, i: nat, p: nat)
    requires i < |ts| && ts[i].TIdentifier? && PREC_ASSIGNMENT <= p <= PREC_UNARY && ParsePrefix(ts, i, p).Some?
    ensures var (l, n) := ParsePrefix(ts, i, p).value; var loose := p == PREC_ASSIGNMENT;
            && i < n <= |ts|
            && (Derives(ts, PREC_UNARY, i, n, l, loose)
                || (loose && Derives(ts, PREC_ASSIGNMENT, i, n, l, true) && Ends(Peek(ts, n))))
    decreases |ts| - i, 0
  {
    hide ParseExpr, ParseInfix, IsConditional, IsExpression, IsLayer, Ends;
    var loose, next := p == PREC_ASSIGNMENT, Peek(ts, i + 1);
    var (l, n) := ParsePrefix(ts, i, p).value;
    if loose && (next.TEqual? || next.TAssign?) {
      Sound(ts, i + 2, PREC_ASSIGNMENT);
      ExpressionIs(ts, i + 2, n, l.rhs);
      assert IsAssignment(ts, i, n, l);
    } else {
      UnaryIs(ts, i, n, l, loose);
      assert IsPrimary(ts, i, n, l, loose);
    }
  }

  lemma {:induction false} SoundParens(ts: Tokens, i: nat, p: nat)
    requires i < |ts| && ts[i].TLParen? && ParsePrefix(ts, i, p).Some?
    ensures var (l, n) := ParsePrefix(ts, i, p).value; i < n <= |ts| && Derives(ts, PREC_UNARY, i, n, l, p == PREC_ASSIGNMENT)
    decreases |ts| - i, 0
  {
    hide ParseExpr, ParseInfix, IsConditional, IsExpression, Derives, Ends;
    var loose, from := p == PREC_ASSIGNMENT, SkipLines(ts, i + 1);
    var (l, n) := ParsePrefix(ts, i, p).value;
    SkipTwice(ts, i + 1);
    Sound(ts, from, PREC_ASSIGNMENT);
    var q := ParseExpr(ts, from, PREC_ASSIGNMENT).value.1;
    ExpressionIs(ts, i + 1, q, l);
    assert IsExpression(ts, i + 1, q, l) && SkipLines(ts, q) == n - 1;
    UnaryIs(ts, i, n, l, loose);
    assert IsPrimary(ts, i, n, l, loose);
  }

  lemma {:induction false} SoundOperator(ts: Tokens, i: nat, p: nat)
    requires i < |ts| && !ts[i].TLParen? && !ts[i].TIdentifier? && !ts[i].TLiteral? && ParsePrefix(ts, i, p).Some?
    ensures var (l, n) := ParsePrefix(ts, i, p).value; i < n <= |ts| && Derives(ts, PREC_UNARY, i, n, l, p == PREC_ASSIGNMENT)
    decreases |ts| - i, 0
  {
    hide ParseExpr, ParseInfix, IsConditional, IsExpression, IsPrimary, Derives, Ends;
    var (l, n) := ParsePrefix(ts, i, p).value;
    Sound(ts, i + 1, PREC_UNARY);
    UnaryIs(ts, SkipLines(ts, i + 1), n, l.arg, false);
    UnaryIs(ts, i, n, l, p == PREC_ASSIGNMENT);
  }

  lemma {:induction false} ExpressionIs(ts: Tokens, i: nat, j: nat, e: Expr)
    requires i <= j <= |ts|
    ensures var s := SkipLines(ts, i); IsExpression(ts, i, j, e) <==> s < j && Derives(ts, PREC_ASSIGNMENT, s, j, e, true)
  {
    hide IsConditional, IsAssignment;
  }

  lemma {:induction false} UnaryIs(ts: Tokens, i: nat, j: nat, e: Expr, loose: bool)
    requires i < j <= |ts|
    ensures Derives(ts, PREC_UNARY, i, j, e, loose) <==> IsUnary(ts, i, j, e, loose)
  {
    hide IsUnary;
    assert PREC_UNARY - PREC_EQUALITY == |LAYERS|;
  }

  /** The loop keeps a phrase that began at `i` and has come to level `level`. */
  lemma {:induction false} SoundInfix(ts: Tokens, i: nat, pos: nat, p: nat, left: Expr, level: nat)
    requires i < pos <= |ts| && PREC_ASSIGNMENT <= p <= level <= PREC_UNARY && ParseInfix(ts, pos, p, left).Some?
    requires Derives(ts, level, i, pos, left, p == PREC_ASSIGNMENT) && Follows(level, Peek(ts, pos))
    ensures var (e, q) := ParseInfix(ts, pos, p, left).value;
            && i < q <= |ts| && Derives(ts, p, i, q, e, p == PREC_ASSIGNMENT)
            && Prec(Peek(ts, q)) < p && (p == PREC_ASSIGNMENT ==> Ends(Peek(ts, q)))
    decreases |ts| - pos, 4
  {
    hide ParseExpr, ParseInfix, Derives, Follows;
    var t := Peek(ts, pos);
    EndsIs(t);
    if Prec(t) < p || Prec(t) == PREC_NONE {
      InfixEnds(ts, pos, p, left);
      Weaker(ts, level, p, i, pos, left, p == PREC_ASSIGNMENT);
    } else if t.TBinary? {
      SoundBinary(ts, i, pos, p, left, level);
    } else if t.TAnd? {
      SoundAnd(ts, i, pos, p, left, level);
    } else if t.TOr? {
      SoundOr(ts, i, pos, p, left, level);
    } else if t.TQuestion? {
      SoundChoice(ts, i, pos, p, left, level);
    } else {
      InfixNone(ts, pos, p, left);
    }
  }

  lemma {:induction false} InfixEnds(ts: Tokens, pos: nat, p: nat, left: Expr)
    requires pos <= |ts| && (Prec(Peek(ts, pos)) < p || Prec(Peek(ts, pos)) == PREC_NONE)
    ensures ParseInfix(ts, pos, p, left) == if p <= PREC_ASSIGNMENT && Peek(ts, pos).TEqual? then None else Some((left, pos))
  {}

  lemma {:induction false} InfixNone(ts: Tokens, pos: nat, p: nat, left: Expr)
    requires pos <= |ts| && p <= Prec(Peek(ts, pos)) && Prec(Peek(ts, pos)) != PREC_NONE
    requires var t := Peek(ts, pos); !t.TBinary? && !t.TAnd? && !t.TOr? && !t.TQuestion?
    ensures ParseInfix(ts, pos, p, left) == None
  {}

  /** The operator at `pos` takes a right operand of level `r`. */
  lemma {:induction false} InfixTakes(ts: Tokens, pos: nat, p: nat, left: Expr, r: nat)
    requires pos < |ts| && PREC_ASSIGNMENT <= p <= Prec(ts[pos])
    requires || (ts[pos].TBinary? && r == Prec(ts[pos]) + 1) || (ts[pos] == TAnd && r == PREC_AND) || (ts[pos] == TOr && r == PREC_OR)
    ensures var right := ParseExpr(ts, pos + 1, r);
            ParseInfix(ts, pos, p, left) ==
              if right.None? then None
              else ParseInfix(ts, right.value.1, p,
                              match ts[pos] case TBinary(op) => Binary(op, left, right.value.0) case TAnd => And(left, right.value.0)
                                            case _ => Or(left, right.value.0))
  {
    hide ParseExpr, ParsePrefix;
  }

  lemma {:induction false} SoundBinary(ts: Tokens, i: nat, pos: nat, p: nat, left: Expr, level: nat)
    requires i < pos <= |ts| && PREC_ASSIGNMENT <= p <= level <= PREC_UNARY && ParseInfix(ts, pos, p, left).Some?
    requires Derives(ts, level, i, pos, left, p == PREC_ASSIGNMENT) && Follows(level, Peek(ts, pos))
    requires Peek(ts, pos).TBinary? && p <= Prec(Peek(ts, pos))
    ensures var (e, q) := ParseInfix(ts, pos, p, left).value;
            && i < q <= |ts| && Derives(ts, p, i, q, e, p == PREC_ASSIGNMENT)
            && Prec(Peek(ts, q)) < p && (p == PREC_ASSIGNMENT ==> Ends(Peek(ts, q)))
    decreases |ts| - pos, 3
  {
    hide ParseExpr, ParseInfix, Derives, Ends, BinPrec;
    var op := ts[pos].bop;
    var r, loose := BinPrec(op), p == PREC_ASSIGNMENT;
    InfixTakes(ts, pos, p, left, r + 1);
    Sound(ts, pos + 1, r + 1);
    var (b, q) := ParseExpr(ts, pos + 1, r + 1).value;
    NotLooser(level, ts[pos]);
    Weaker(ts, level, r, i, pos, left, loose);
    BinaryIs(ts, i, pos, q, left, b, loose);
    SoundInfix(ts, i, q, p, Binary(op, left, b), r);
  }

  lemma {:induction false} NotLooser(level: nat, t: Token)
    requires Follows(level, t) && PREC_ASSIGNMENT <= level <= PREC_UNARY && t.TBinary?
    ensures Prec(t) == BinPrec(t.bop) <= level
  {}

  lemma {:induction false} BinaryIs(ts: Tokens, i: nat, q: nat, j: nat, a: Expr, b: Expr, loose: bool)
    requires i < q < j <= |ts| && ts[q].TBinary? && SkipLines(ts, q + 1) < j
    requires var r := BinPrec(ts[q].bop); Derives(ts, r, i, q, a, loose) && Derives(ts, r + 1, SkipLines(ts, q + 1), j, b, false)
    ensures Derives(ts, BinPrec(ts[q].bop), i, j, Binary(ts[q].bop, a, b), loose)
  {
    hide IsConditional, IsDisjunction, IsConjunction, IsAssignment, BinPrec;
    var k := BinPrec(ts[q].bop) - PREC_EQUALITY;
    LayerOf(ts[q].bop, k);
    assert IsLayer(ts, k, i, q, a, loose) && IsLayer(ts, k + 1, SkipLines(ts, q + 1), j, b, false);
  }

  lemma {:induction false} SoundAnd(ts: Tokens, i: nat, pos: nat, p: nat, left: Expr, level: nat)
    requires i < pos <= |ts| && PREC_ASSIGNMENT <= p <= level <= PREC_UNARY && ParseInfix(ts, pos, p, left).Some?
    requires Derives(ts, level, i, pos, left, p == PREC_ASSIGNMENT) && Follows(level, Peek(ts, pos))
    requires Peek(ts, pos).TAnd? && p <= PREC_AND
    ensures var (e, q) := ParseInfix(ts, pos, p, left).value;
            && i < q <= |ts| && Derives(ts, p, i, q, e, p == PREC_ASSIGNMENT)
            && Prec(Peek(ts, q)) < p && (p == PREC_ASSIGNMENT ==> Ends(Peek(ts, q)))
    decreases |ts| - pos, 3
  {
    hide ParseExpr, ParseInfix, Derives, Ends;
    var loose := p == PREC_ASSIGNMENT;
    InfixTakes(ts, pos, p, left, PREC_AND);
    Sound(ts, pos + 1, PREC_AND);
    var (b, q) := ParseExpr(ts, pos + 1, PREC_AND).value;
    NotEnd(level, TAnd);
    Weaker(ts, level, PREC_EQUALITY, i, pos, left, loose);
    AndIs(ts, i, pos, q, left, b, loose);
    SoundInfix(ts, i, q, p, And(left, b), PREC_AND);
  }

  /** What a connective follows is tighter than it. */
  lemma {:induction false} NotEnd(level: nat, t: Token)
    requires Follows(level, t) && PREC_ASSIGNMENT <= level <= PREC_UNARY && (t == TAnd || t == TOr || t == TQuestion)
    ensures level > Prec(t)
  {}

  lemma {:induction false} AndIs(ts: Tokens, i: nat, q: nat, j: nat, a: Expr, b: Expr, loose: bool)
    requires i < q < j <= |ts| && ts[q] == TAnd && SkipLines(ts, q + 1) < j
    requires Derives(ts, PREC_EQUALITY, i, q, a, loose) && Derives(ts, PREC_AND, SkipLines(ts, q + 1), j, b, false)
    ensures Derives(ts, PREC_AND, i, j, And(a, b), loose)
  {
    hide IsConditional, IsDisjunction, IsLayer, IsAssignment;
    assert IsLayer(ts, 0, i, q, a, loose) && IsConjunction(ts, SkipLines(ts, q + 1), j, b, false);
  }

  lemma {:induction false} SoundOr(ts: Tokens, i: nat, pos: nat, p: nat, left: Expr, level: nat)
    requires i < pos <= |ts| && PREC_ASSIGNMENT <= p <= level <= PREC_UNARY && ParseInfix(ts, pos, p, left).Some?
    requires Derives(ts, level, i, pos, left, p == PREC_ASSIGNMENT) && Follows(level, Peek(ts, pos))
    requires Peek(ts, pos).TOr? && p <= PREC_OR
    ensures var (e, q) := ParseInfix(ts, pos, p, left).value;
            && i < q <= |ts| && Derives(ts, p, i, q, e, p == PREC_ASSIGNMENT)
            && Prec(Peek(ts, q)) < p && (p == PREC_ASSIGNMENT ==> Ends(Peek(ts, q)))
    decreases |ts| - pos, 3
  {
    hide ParseExpr, ParseInfix, Derives, Ends;
    var loose := p == PREC_ASSIGNMENT;
    InfixTakes(ts, pos, p, left, PREC_OR);
    Sound(ts, pos + 1, PREC_OR);
    var (b, q) := ParseExpr(ts, pos + 1, PREC_OR).value;
    NotEnd(level, TOr);
    Weaker(ts, level, PREC_AND, i, pos, left, loose);
    OrIs(ts, i, pos, q, left, b, loose);
    SoundInfix(ts, i, q, p, Or(left, b), PREC_OR);
  }

  lemma {:induction false} OrIs(ts: Tokens, i: nat, q: nat, j: nat, a: Expr, b: Expr, loose: bool)
    requires i < q < j <= |ts| && ts[q] == TOr && SkipLines(ts, q + 1) < j
    requires Derives(ts, PREC_AND, i, q, a, loose) && Derives(ts, PREC_OR, SkipLines(ts, q + 1), j, b, false)
    ensures Derives(ts, PREC_OR, i, j, Or(a, b), loose)
  {
    hide IsConditional, IsConjunction, IsLayer, IsAssignment;
    assert IsConjunction(ts, i, q, a, loose) && IsDisjunction(ts, SkipLines(ts, q + 1), j, b, false);
  }

  lemma {:induction false} SoundChoice(ts: Tokens, i: nat, pos: nat, p: nat, left: Expr, level: nat)
    requires i < pos <= |ts| && PREC_ASSIGNMENT <= p <= level <= PREC_UNARY && ParseInfix(ts, pos, p, left).Some?
    requires Derives(ts, level, i, pos, left, p == PREC_ASSIGNMENT) && Follows(level, Peek(ts, pos))
    requires Peek(ts, pos).TQuestion? && p <= PREC_CONDITIONAL
    ensures var (e, q) := ParseInfix(ts, pos, p, left).value;
            && i < q <= |ts| && Derives(ts, p, i, q, e, p == PREC_ASSIGNMENT)
            && Prec(Peek(ts, q)) < p && (p == PREC_ASSIGNMENT ==> Ends(Peek(ts, q)))
    decreases |ts| - pos, 3
  {
    hide ParseExpr, ParseInfix, Derives, Ends, Prec;
    var loose := p == PREC_ASSIGNMENT;
    var a, m, b, q := ChoiceParses(ts, pos, p, left);
    NotEnd(level, TQuestion);
    AskIs();
    Weaker(ts, level, PREC_OR, i, pos, left, loose);
    ChoiceIs(ts, i, pos, m, q, left, a, b, loose);
    SoundInfix(ts, i, q, p, Cond(left, a, b), PREC_CONDITIONAL);
  }

  lemma {:induction false} AskIs()
    ensures Prec(TQuestion) == PREC_CONDITIONAL
  {}

  /** The two arms of a choice whose question mark is at `pos`. */
  lemma {:induction false} ChoiceParses(ts: Tokens, pos: nat, p: nat, left: Expr) returns (a: Expr, m: nat, b: Expr, q: nat)
    requires pos < |ts| && ts[pos].TQuestion? && PREC_ASSIGNMENT <= p <= PREC_CONDITIONAL && ParseInfix(ts, pos, p, left).Some?
    ensures pos < m < q <= |ts| && ParseInfix(ts, pos, p, left) == ParseInfix(ts, q, p, Cond(left, a, b)) && Ends(Peek(ts, q))
    ensures SkipLines(ts, pos + 1) < m && Derives(ts, PREC_CONDITIONAL, SkipLines(ts, pos + 1), m, a, false)
    ensures var colon := SkipLines(ts, m);
            (colon < q && ts[colon] == TColon && SkipLines(ts, colon + 1) < q
             && Derives(ts, PREC_ASSIGNMENT, SkipLines(ts, colon + 1), q, b, true))
    decreases |ts| - pos, 2
  {
    hide ParseExpr, ParsePrefix, ParseInfix, Derives, Ends;
    ChoiceForm(ts, pos, p, left);
    var from := SkipLines(ts, pos + 1);
    var first := ParseExpr(ts, from, PREC_CONDITIONAL).value;
    a, m := first.0, first.1;
    var after := SkipLines(ts, SkipLines(ts, m) + 1);
    var second := ParseExpr(ts, after, PREC_ASSIGNMENT).value;
    b, q := second.0, second.1;
    SkipTwice(ts, pos + 1);
    SkipTwice(ts, SkipLines(ts, m) + 1);
    Sound(ts, from, PREC_CONDITIONAL);
    Sound(ts, after, PREC_ASSIGNMENT);
  }

  lemma {:induction false} ChoiceForm(ts: Tokens, pos: nat, p: nat, left: Expr)
    requires pos < |ts| && ts[pos].TQuestion? && PREC_ASSIGNMENT <= p <= PREC_CONDITIONAL && ParseInfix(ts, pos, p, left).Some?
    ensures var a := ParseExpr(ts, SkipLines(ts, pos + 1), PREC_CONDITIONAL);
            (a.Some? && var colon := SkipLines(ts, a.value.1);
             (colon < |ts| && ts[colon] == TColon && var b := ParseExpr(ts, SkipLines(ts, colon + 1), PREC_ASSIGNMENT);
              (b.Some? && ParseInfix(ts, pos, p, left) == ParseInfix(ts, b.value.1, p, Cond(left, a.value.0, b.value.0)))))
  {
    hide ParseExpr, ParsePrefix;
  }

  lemma {:induction false} ChoiceIs(ts: Tokens, i: nat, q: nat, m: nat, j: nat, c: Expr, a: Expr, b: Expr, loose: bool)
    requires i < q < m < j <= |ts| && ts[q] == TQuestion && SkipLines(ts, q + 1) < m && Derives(ts, PREC_OR, i, q, c, loose)
    requires Derives(ts, PREC_CONDITIONAL, SkipLines(ts, q + 1), m, a, false)
    requires SkipLines(ts, m) < j && ts[SkipLines(ts, m)] == TColon && SkipLines(ts, SkipLines(ts, m) + 1) < j
    requires Derives(ts, PREC_ASSIGNMENT, SkipLines(ts, SkipLines(ts, m) + 1), j, b, true)
    ensures Derives(ts, PREC_CONDITIONAL, i, j, Cond(c, a, b), loose)
  {
    hide IsDisjunction, IsConjunction, IsLayer, IsExpression;
    ExpressionIs(ts, SkipLines(ts, m) + 1, j, b);
    assert IsChoice(ts, i, q, m, j, Cond(c, a, b), loose);
  }

  // ----- what is derived is parsed -----

  /** Parsing from a token that is no newline. */
  function ParseAt(ts: Tokens, i: nat, p: nat): Parsed<Expr>
    requires i < |ts|
  {
    var left := ParsePrefix(ts, i, p);
    if left.None? then None else ParseInfix(ts, left.value.1, p, left.value.0)
  }

  lemma {:induction false} ExprAt(ts: Tokens, pos: nat, p: nat)
    ensures var s := SkipLines(ts, pos); ParseExpr(ts, pos, p) == if s < |ts| then ParseAt(ts, s, p) else None
  {
    hide ParsePrefix, ParseInfix;
  }

  /** A token before which a phrase of a level is as long as it can be. */
  ghost predicate Closes(level: nat, t: Token) {
    if level >= PREC_EQUALITY then Prec(t) <= level && Prec(t) < PREC_UNARY
    else if level >= PREC_OR then Prec(t) < level
    else Ends(t)
  }

  /** The parser gets over a phrase of level `level` and goes on behind it. */
  ghost predicate GetsOver(ts: Tokens, i: nat, j: nat, p: nat, e: Expr)
    requires i < j <= |ts|
  {
    ParseAt(ts, i, p) == ParseInfix(ts, j, p, e)
  }

  lemma {:induction false} Complete(ts: Tokens, level: nat, i: nat, j: nat, e: Expr, p: nat)
    requires i < j <= |ts| && PREC_ASSIGNMENT <= p <= level <= PREC_UNARY
    requires Derives(ts, level, i, j, e, p == PREC_ASSIGNMENT) && Closes(level, Peek(ts, j))
    ensures GetsOver(ts, i, j, p, e)
    decreases j - i, 40 - 2 * level
  {
    hide GetsOver, Closes, Derives;
    if level == PREC_UNARY { CompleteUnary(ts, i, j, e, p); }
    else if level >= PREC_EQUALITY { CompleteLayer(ts, level, i, j, e, p); }
    else if level == PREC_AND { CompleteAnd(ts, i, j, e, p); }
    else if level == PREC_OR { CompleteOr(ts, i, j, e, p); }
    else { CompleteLoose(ts, level, i, j, e, p); }
  }

  /** An operand that begins on a new line or not. */
  lemma {:induction false} CompleteOperand(ts: Tokens, level: nat, i: nat, j: nat, e: Expr)
    requires SkipLines(ts, i) < j <= |ts| && PREC_ASSIGNMENT <= level <= PREC_UNARY
    requires Derives(ts, level, SkipLines(ts, i), j, e, level == PREC_ASSIGNMENT) && Closes(level, Peek(ts, j)) && Prec(Peek(ts, j)) < level
    ensures ParseExpr(ts, i, level) == Some((e, j))
    decreases j - SkipLines(ts, i), 41
  {
    hide ParseExpr, ParsePrefix, ParseInfix, Derives;
    ExprAt(ts, i, level);
    Complete(ts, level, SkipLines(ts, i), j, e, level);
    InfixEnds(ts, j, level, e);
  }

  lemma {:induction false} CompleteUnary(ts: Tokens, i: nat, j: nat, e: Expr, p: nat)
    requires i < j <= |ts| && PREC_ASSIGNMENT <= p <= PREC_UNARY
    requires Derives(ts, PREC_UNARY, i, j, e, p == PREC_ASSIGNMENT) && Closes(PREC_UNARY, Peek(ts, j))
    ensures GetsOver(ts, i, j, p, e)
    decreases j - i, 11
  {
    hide ParseExpr, ParseInfix, Derives, IsPrimary, IsExpression;
    var loose := p == PREC_ASSIGNMENT;
    UnaryIs(ts, i, j, e, loose);
    if IsPrimary(ts, i, j, e, loose) {
      CompletePrimary(ts, i, j, e, p);
    } else {
      UnaryIs(ts, SkipLines(ts, i + 1), j, e.arg, false);
      CompleteOperand(ts, PREC_UNARY, i + 1, j, e.arg);
    }
  }

  lemma {:induction false} CompletePrimary(ts: Tokens, i: nat, j: nat, e: Expr, p: nat)
    requires i < j <= |ts| && PREC_ASSIGNMENT <= p <= PREC_UNARY && IsPrimary(ts, i, j, e, p == PREC_ASSIGNMENT)
    ensures GetsOver(ts, i, j, p, e)
    decreases j - i, 10
  {
    hide ParseExpr, ParseInfix, Derives, IsExpression, ParsePrefix, GetsOver;
    if ts[i].TLParen? {
      var q: nat :| i < q < j && IsExpression(ts, i + 1, q, e) && SkipLines(ts, q) == j - 1 && ts[j - 1] == TRParen;
      ExpressionIs(ts, i + 1, q, e);
      SkipTwice(ts, i + 1);
      BeforeParen(ts, q);
      CompleteOperand(ts, PREC_ASSIGNMENT, SkipLines(ts, i + 1), q, e);
      ParensOver(ts, i, q, e, p);
    } else {
      AtomOver(ts, i, j, e, p);
    }
  }

  lemma {:induction false} AtomOver(ts: Tokens, i: nat, j: nat, e: Expr, p: nat)
    requires i < j <= |ts| && PREC_ASSIGNMENT <= p && !ts[i].TLParen? && IsPrimary(ts, i, j, e, p == PREC_ASSIGNMENT)
    ensures GetsOver(ts, i, j, p, e)
  {
    hide ParseExpr, ParseInfix, IsExpression;
  }

  lemma {:induction false} ParensOver(ts: Tokens, i: nat, q: nat, e: Expr, p: nat)
    requires i < |ts| && ts[i].TLParen? && ParseExpr(ts, SkipLines(ts, i + 1), PREC_ASSIGNMENT) == Some((e, q))
    requires q <= |ts| && SkipLines(ts, q) < |ts| && ts[SkipLines(ts, q)] == TRParen
    ensures i < SkipLines(ts, q) + 1 <= |ts| && GetsOver(ts, i, SkipLines(ts, q) + 1, p, e)
  {
    hide ParseExpr, ParseInfix;
  }

  lemma {:induction false} BeforeParen(ts: Tokens, q: nat)
    requires q <= |ts| && SkipLines(ts, q) < |ts| && (ts[SkipLines(ts, q)] == TRParen || ts[SkipLines(ts, q)] == TColon)
    ensures Ends(Peek(ts, q)) && Prec(Peek(ts, q)) == PREC_NONE
  {}

  lemma {:induction false} CompleteLayer(ts: Tokens, level: nat, i: nat, j: nat, e: Expr, p: nat)
    requires i < j <= |ts| && PREC_ASSIGNMENT <= p <= level && PREC_EQUALITY <= level < PREC_UNARY
    requires Derives(ts, level, i, j, e, p == PREC_ASSIGNMENT) && Closes(level, Peek(ts, j))
    ensures GetsOver(ts, i, j, p, e)
    decreases j - i, 39 - 2 * level
  {
    hide ParseExpr, ParsePrefix, ParseInfix, IsUnary, Derives;
    var k, loose := level - PREC_EQUALITY, p == PREC_ASSIGNMENT;
    LayerMeans(ts, level, i, j, e, loose);
    if Derives(ts, level + 1, i, j, e, loose) {
      Complete(ts, level + 1, i, j, e, p);
    } else {
      var q := SplitLayer(ts, level, i, j, e, loose);
      Complete(ts, level, i, q, e.left, p);
      CompleteOperand(ts, level + 1, q + 1, j, e.right);
      InfixTakes(ts, q, p, e.left, level + 1);
    }
  }

  lemma {:induction false} LayerMeans(ts: Tokens, level: nat, i: nat, j: nat, e: Expr, loose: bool)
    requires i < j <= |ts| && PREC_EQUALITY <= level < PREC_UNARY && Derives(ts, level, i, j, e, loose)
    ensures !Derives(ts, level + 1, i, j, e, loose) ==>
              e.Binary? && exists q: nat :: i < q < j && Splits(ts, level, i, q, j, e, loose)
  {
    hide IsUnary, BinPrec;
    var k := level - PREC_EQUALITY;
    if !IsLayer(ts, k + 1, i, j, e, loose) {
      LayerOf(e.bop, k);
      var q: nat :| i < q < j && ts[q] == TBinary(e.bop) && IsLayer(ts, k, i, q, e.left, loose)
                    && var s := SkipLines(ts, q + 1); s < j && IsLayer(ts, k + 1, s, j, e.right, false);
      assert Splits(ts, level, i, q, j, e, loose);
    }
  }

  /** The operator of `e` is at `q`. */
  ghost predicate Splits(ts: Tokens, level: nat, i: nat, q: nat, j: nat, e: Expr, loose: bool)
    requires i < q < j <= |ts| && PREC_EQUALITY <= level < PREC_UNARY && e.Binary?
  {
    && ts[q] == TBinary(e.bop) && BinPrec(e.bop) == level && Derives(ts, level, i, q, e.left, loose)
    && SkipLines(ts, q + 1) < j && Derives(ts, level + 1, SkipLines(ts, q + 1), j, e.right, false)
  }

  lemma {:induction false} SplitLayer(ts: Tokens, level: nat, i: nat, j: nat, e: Expr, loose: bool) returns (q: nat)
    requires i < j <= |ts| && PREC_EQUALITY <= level < PREC_UNARY && e.Binary?
    requires exists q: nat :: i < q < j && Splits(ts, level, i, q, j, e, loose)
    ensures i < q < j && Splits(ts, level, i, q, j, e, loose)
  {
    q :| i < q < j && Splits(ts, level, i, q, j, e, loose);
  }

  lemma {:induction false} CompleteAnd(ts: Tokens, i: nat, j: nat, e: Expr, p: nat)
    requires i < j <= |ts| && PREC_ASSIGNMENT <= p <= PREC_AND
    requires Derives(ts, PREC_AND, i, j, e, p == PREC_ASSIGNMENT) && Closes(PREC_AND, Peek(ts, j))
    ensures GetsOver(ts, i, j, p, e)
    decreases j - i, 31
  {
    hide ParseExpr, ParsePrefix, ParseInfix, IsLayer;
    var loose := p == PREC_ASSIGNMENT;
    if IsLayer(ts, 0, i, j, e, loose) {
      Complete(ts, PREC_EQUALITY, i, j, e, p);
    } else {
      var q: nat :| i < q < j && ts[q] == TAnd && IsLayer(ts, 0, i, q, e.left, loose)
                    && var s := SkipLines(ts, q + 1); s < j && IsConjunction(ts, s, j, e.right, false);
      Complete(ts, PREC_EQUALITY, i, q, e.left, p);
      CompleteOperand(ts, PREC_AND, q + 1, j, e.right);
      InfixTakes(ts, q, p, e.left, PREC_AND);
    }
  }

  lemma {:induction false} CompleteOr(ts: Tokens, i: nat, j: nat, e: Expr, p: nat)
    requires i < j <= |ts| && PREC_ASSIGNMENT <= p <= PREC_OR
    requires Derives(ts, PREC_OR, i, j, e, p == PREC_ASSIGNMENT) && Closes(PREC_OR, Peek(ts, j))
    ensures GetsOver(ts, i, j, p, e)
    decreases j - i, 33
  {
    hide ParseExpr, ParsePrefix, ParseInfix, IsConjunction;
    var loose := p == PREC_ASSIGNMENT;
    if IsConjunction(ts, i, j, e, loose) {
      Complete(ts, PREC_AND, i, j, e, p);
    } else {
      var q: nat :| i < q < j && ts[q] == TOr && IsConjunction(ts, i, q, e.left, loose)
                    && var s := SkipLines(ts, q + 1); s < j && IsDisjunction(ts, s, j, e.right, false);
      Complete(ts, PREC_AND, i, q, e.left, p);
      CompleteOperand(ts, PREC_OR, q + 1, j, e.right);
      InfixTakes(ts, q, p, e.left, PREC_OR);
    }
  }

  lemma {:induction false} CompleteLoose(ts: Tokens, level: nat, i: nat, j: nat, e: Expr, p: nat)
    requires i < j <= |ts| && PREC_ASSIGNMENT <= p <= level <= PREC_CONDITIONAL
    requires Derives(ts, level, i, j, e, p == PREC_ASSIGNMENT) && Closes(level, Peek(ts, j))
    ensures GetsOver(ts, i, j, p, e)
    decreases j - i, 39 - 2 * level
  {
    hide ParseExpr, ParsePrefix, ParseInfix, IsDisjunction, IsAssignment, IsExpression, IsChoice;
    var loose := p == PREC_ASSIGNMENT;
    EndsIs(Peek(ts, j));
    if loose && IsAssignment(ts, i, j, e) { CompleteAssignment(ts, i, j, e); }
    else if IsDisjunction(ts, i, j, e, loose) { Complete(ts, PREC_OR, i, j, e, p); }
    else {
      assert IsConditional(ts, i, j, e, loose);
      var q: nat, m: nat :| i < q < m < j && IsChoice(ts, i, q, m, j, e, loose);
      CompleteChoice(ts, i, q, m, j, e, p);
    }
  }

  lemma {:induction false} CompleteAssignment(ts: Tokens, i: nat, j: nat, e: Expr)
    requires i < j <= |ts| && IsAssignment(ts, i, j, e) && Ends(Peek(ts, j))
    ensures GetsOver(ts, i, j, PREC_ASSIGNMENT, e)
    decreases j - i, 4
  {
    hide ParseExpr, ParseInfix, IsExpression, Derives;
    EndsIs(Peek(ts, j));
    ExpressionIs(ts, i + 2, j, e.rhs);
    CompleteOperand(ts, PREC_ASSIGNMENT, i + 2, j, e.rhs);
  }

  lemma {:induction false} CompleteChoice(ts: Tokens, i: nat, q: nat, m: nat, j: nat, e: Expr, p: nat)
    requires i < q < m < j <= |ts| && e.Cond? && PREC_ASSIGNMENT <= p <= PREC_CONDITIONAL
    requires IsChoice(ts, i, q, m, j, e, p == PREC_ASSIGNMENT) && Ends(Peek(ts, j))
    ensures GetsOver(ts, i, j, p, e)
    decreases j - i, 4
  {
    hide ParseExpr, ParsePrefix, ParseInfix, IsDisjunction, IsExpression, IsConditional;
    var colon := SkipLines(ts, m);
    EndsIs(Peek(ts, j));
    BeforeParen(ts, m);
    ExpressionIs(ts, colon + 1, j, e.els);
    Complete(ts, PREC_OR, i, q, e.cond, p);
    SkipTwice(ts, q + 1);
    SkipTwice(ts, colon + 1);
    CompleteOperand(ts, PREC_CONDITIONAL, SkipLines(ts, q + 1), m, e.thn);
    CompleteOperand(ts, PREC_ASSIGNMENT, SkipLines(ts, colon + 1), j, e.els);
    ChoiceTakes(ts, q, p, e.cond, e.thn, m, e.els, j);
  }

  lemma {:induction false} ChoiceTakes(ts: Tokens, ask: nat, p: nat, c: Expr, a: Expr, m: nat, b: Expr, next: nat)
    requires ask < |ts| && ts[ask] == TQuestion && PREC_ASSIGNMENT <= p <= PREC_CONDITIONAL
    requires ParseExpr(ts, SkipLines(ts, ask + 1), PREC_CONDITIONAL) == Some((a, m))
    requires SkipLines(ts, m) < |ts| && ts[SkipLines(ts, m)] == TColon
    requires ParseExpr(ts, SkipLines(ts, SkipLines(ts, m) + 1), PREC_ASSIGNMENT) == Some((b, next))
    ensures ParseInfix(ts, ask, p, c) == ParseInfix(ts, next, p, Cond(c, a, b))
  {
    hide ParseExpr, ParsePrefix;
  }

  /** The parser reads an expression exactly if the grammar derives it from those tokens and it is followed by a
      token that ends it. */
  lemma {:induction false} ParsesIff(ts: Tokens, pos: nat, e: Expr, q: nat)
    ensures ParseExpr(ts, pos, PREC_ASSIGNMENT) == Some((e, q)) <==>
            pos <= q <= |ts| && IsExpression(ts, pos, q, e) && Ends(Peek(ts, q))
  {
    hide ParseExpr, IsExpression, Derives;
    if ParseExpr(ts, pos, PREC_ASSIGNMENT) == Some((e, q)) {
      Sound(ts, pos, PREC_ASSIGNMENT);
      ExpressionIs(ts, pos, q, e);
    }
    if pos <= q <= |ts| && IsExpression(ts, pos, q, e) && Ends(Peek(ts, q)) {
      ExpressionIs(ts, pos, q, e);
      EndsIs(Peek(ts, q));
      CompleteOperand(ts, PREC_ASSIGNMENT, pos, q, e);
    }
  }
}
