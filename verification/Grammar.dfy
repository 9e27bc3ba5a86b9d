/** The token grammar, as a reference parser that builds a tree. Expressions follow the
    precedence table of the Pratt parser. */
module Grammar {
  import opened Basics
  import opened Values
  import opened Syntax

  datatype Token =
    | TNewline | TSemicolon | TComma | TColon | TQuestion
    | TLParen | TRParen | TLBrace | TRBrace
    | TEqual | TAssign(aop: AssignOp) | TIncrement | TDecrement
    | TBinary(bop: BinOp) | TBang | TTilde | TAnd | TOr
    | TLiteral(lit: Literal) | TIdentifier(name: string)
    | TEcho | TIf | TElse | TWhile | TDo | TIter | TUsing | TWhen | TDefault
    | TContinue | TBreak | TReturn | TVar
    | TEof
    | TOther

  type Tokens = seq<Token>

  /** The token at `pos`; the scanner keeps answering end-of-file once it is reached. */
  function Peek(ts: Tokens, pos: nat): Token {
    if pos < |ts| then ts[pos] else TEof
  }

  // Precedence levels, lowest first.
  const PREC_NONE := 0
  const PREC_ASSIGNMENT := 1
  const PREC_CONDITIONAL := 2
  const PREC_OR := 3
  const PREC_AND := 4
  const PREC_EQUALITY := 5
  const PREC_COMPARISON := 6
  const PREC_BIT_OR := 7
  const PREC_BIT_XOR := 8
  const PREC_BIT_AND := 9
  const PREC_SHIFT := 10
  const PREC_RANGE := 11
  const PREC_TERM := 12
  const PREC_FACTOR := 13
  const PREC_UNARY := 14
  const PREC_CALL := 15

  function BinPrec(op: BinOp): (q: nat)
    ensures PREC_EQUALITY <= q <= PREC_FACTOR
  {
    match op
    case Eq => PREC_EQUALITY case Ne => PREC_EQUALITY
    case Gt => PREC_COMPARISON case Ge => PREC_COMPARISON case Lt => PREC_COMPARISON case Le => PREC_COMPARISON
    case BitOr => PREC_BIT_OR case BitXor => PREC_BIT_XOR case BitAnd => PREC_BIT_AND
    case Shl => PREC_SHIFT case Shr => PREC_SHIFT
    case Range => PREC_RANGE
    case Add => PREC_TERM case Sub => PREC_TERM
    case Mul => PREC_FACTOR case Div => PREC_FACTOR case Rem => PREC_FACTOR case Pow => PREC_FACTOR
    case FloorDiv => PREC_FACTOR
  }

  /** How tightly a token binds in infix position. */
  function Prec(t: Token): nat {
    match t
    case TBinary(op) => BinPrec(op)
    case TAnd => PREC_AND
    case TOr => PREC_OR
    case TQuestion => PREC_CONDITIONAL
    case TTilde => PREC_UNARY
    case TLParen => PREC_CALL
    case _ => PREC_NONE
  }

  predicate AssignLike(t: Token) {
    t.TEqual? || t.TAssign? || t.TIncrement? || t.TDecrement?
  }

  function PrefixOp(t: Token): Option<UnOp> {
    match t
    case TBang => Some(Not)
    case TTilde => Some(BitNot)
    case TBinary(Sub) => Some(Negate)
    case TBinary(Add) => Some(UPlus)
    case _ => None
  }

  /** Past any newlines. */
  function SkipLines(ts: Tokens, pos: nat): (r: nat)
    ensures pos <= r && (pos <= |ts| ==> r <= |ts|)
    ensures !Peek(ts, r).TNewline?
    ensures forall i :: pos <= i < r ==> i < |ts| && ts[i].TNewline?
    decreases |ts| - pos
  {
    if Peek(ts, pos).TNewline? then SkipLines(ts, pos + 1) else pos
  }

  /** A tree and the position after it, or a syntax error. */
  type Parsed<T> = Option<(T, nat)>

  // ----- expressions -----

  /** An expression whose infix operators bind at least as tightly as `prec`. */
  function ParseExpr(ts: Tokens, pos: nat, prec: nat): (r: Parsed<Expr>)
    ensures r.Some? ==> pos < r.value.1 <= |ts|
    decreases |ts| - pos, 2
  {
    var start := SkipLines(ts, pos);
    if start >= |ts| then None else
    var left := ParsePrefix(ts, start, prec);
    if left.None? then None else ParseInfix(ts, left.value.1, prec, left.value.0)
  }

  /** What may begin an expression; assignment only where the context allows it. */
  function ParsePrefix(ts: Tokens, pos: nat, prec: nat): (r: Parsed<Expr>)
    requires pos < |ts|
    ensures r.Some? ==> pos < r.value.1 <= |ts|
    decreases |ts| - pos, 1
  {
    match ts[pos]
    case TLiteral(l) => Some((Lit(l), pos + 1))
    case TIdentifier(x) =>
      var next := Peek(ts, pos + 1);
      if prec > PREC_ASSIGNMENT || !AssignLike(next) then Some((Var(x), pos + 1))
      else if next.TIncrement? || next.TDecrement? then Some((Step(x, next.TIncrement?), pos + 2))
      else
        var rhs := ParseExpr(ts, pos + 2, PREC_ASSIGNMENT);
        if rhs.None? then None
        else if next.TEqual? then Some((Assign(x, rhs.value.0), rhs.value.1))
        else Some((Update(x, next.aop, rhs.value.0), rhs.value.1))
    case TLParen =>
      var inner := ParseExpr(ts, SkipLines(ts, pos + 1), PREC_ASSIGNMENT);
      if inner.None? then None else
      var close := SkipLines(ts, inner.value.1);
      if Peek(ts, close).TRParen? then Some((inner.value.0, close + 1)) else None
    case t =>
      var op := PrefixOp(t);
      if op.None? then None else
      var arg := ParseExpr(ts, pos + 1, PREC_UNARY);
      if arg.None? then None else Some((Unary(op.value, arg.value.0), arg.value.1))
  }

  /** Extends `left` with the infix operators that follow it. */
  function ParseInfix(ts: Tokens, pos: nat, prec: nat, left: Expr): (r: Parsed<Expr>)
    requires pos <= |ts|
    ensures r.Some? ==> pos <= r.value.1 <= |ts|
    decreases |ts| - pos, 0
  {
    var t := Peek(ts, pos);
    if Prec(t) < prec || Prec(t) == PREC_NONE then
      if prec <= PREC_ASSIGNMENT && t.TEqual? then None else Some((left, pos))
    else
      match t
      case TBinary(op) =>
        var r := ParseExpr(ts, pos + 1, BinPrec(op) + 1);
        if r.None? then None else ParseInfix(ts, r.value.1, prec, Binary(op, left, r.value.0))
      case TAnd =>
        var r := ParseExpr(ts, pos + 1, PREC_AND);
        if r.None? then None else ParseInfix(ts, r.value.1, prec, And(left, r.value.0))
      case TOr =>
        var r := ParseExpr(ts, pos + 1, PREC_OR);
        if r.None? then None else ParseInfix(ts, r.value.1, prec, Or(left, r.value.0))
      case TQuestion =>
        var a := ParseExpr(ts, SkipLines(ts, pos + 1), PREC_CONDITIONAL);
        if a.None? then None else
        var colon := SkipLines(ts, a.value.1);
        if !Peek(ts, colon).TColon? then None else
        var b := ParseExpr(ts, SkipLines(ts, colon + 1), PREC_ASSIGNMENT);
        if b.None? then None else ParseInfix(ts, b.value.1, prec, Cond(left, a.value.0, b.value.0))
      case _ => None
  }

  /** One turn of the infix loop on a token with a right operand. */
  lemma {:induction false} InfixPair(ts: Tokens, mid: nat, p: nat, l: Expr, r: Expr, rq: nat, next: nat, e: Expr)
    requires mid < |ts| && ParseExpr(ts, mid + 1, rq) == Some((r, next))
    requires || (ts[mid].TBinary? && e == Binary(ts[mid].bop, l, r) && rq == BinPrec(ts[mid].bop) + 1)
             || (ts[mid] == TAnd && e == And(l, r) && rq == PREC_AND)
             || (ts[mid] == TOr && e == Or(l, r) && rq == PREC_OR)
    requires PREC_ASSIGNMENT <= p <= Prec(ts[mid])
    ensures ParseInfix(ts, mid, p, l) == ParseInfix(ts, next, p, e)
  {
    hide ParseExpr, ParsePrefix;
  }

  /** One turn of the infix loop on `?`. */
  lemma {:induction false} InfixCond(ts: Tokens, ask: nat, p: nat, c: Expr, t: Expr, f: Expr, colon: nat, next: nat)
    requires ask < |ts| && ts[ask] == TQuestion && PREC_ASSIGNMENT <= p <= PREC_CONDITIONAL
    requires ParseExpr(ts, SkipLines(ts, ask + 1), PREC_CONDITIONAL) == Some((t, colon))
    requires colon < |ts| && ts[colon] == TColon
    requires ParseExpr(ts, SkipLines(ts, colon + 1), PREC_ASSIGNMENT) == Some((f, next))
    ensures ParseInfix(ts, ask, p, c) == ParseInfix(ts, next, p, Cond(c, t, f))
  {
    hide ParseExpr, ParsePrefix;
  }

  // ----- statements -----

  /** Past any semicolons and newlines. */
  function SkipEnds(ts: Tokens, pos: nat): (r: nat)
    ensures pos <= r && (pos <= |ts| ==> r <= |ts|)
    decreases |ts| - pos
  {
    if Peek(ts, pos).TNewline? || Peek(ts, pos).TSemicolon? then SkipEnds(ts, pos + 1) else pos
  }

  /** What may end a statement inside a block; the last one needs nothing before the brace. */
  function StatementEnd(ts: Tokens, pos: nat): (r: Option<nat>)
    requires pos <= |ts|
    ensures r.Some? ==> pos <= r.value <= |ts|
  {
    match Peek(ts, pos)
    case TRBrace => Some(pos)
    case TEof => Some(pos)
    case TSemicolon => Some(SkipEnds(ts, pos + 1))
    case TNewline => Some(SkipEnds(ts, pos + 1))
    case _ => None
  }

  /** An expression and the end of its statement. */
  function ParseEnded(ts: Tokens, pos: nat): (r: Parsed<Expr>)
    ensures r.Some? ==> pos < r.value.1 <= |ts|
  {
    var e := ParseExpr(ts, pos, PREC_ASSIGNMENT);
    if e.None? then None else
    var end := StatementEnd(ts, e.value.1);
    if end.None? then None else Some((e.value.0, end.value))
  }

  /** A name in a declaration, with its initializer. */
  datatype Declarator = Declarator(name: string, init: Option<Expr>)

  function ParseDeclarator(ts: Tokens, pos: nat): (r: Parsed<Declarator>)
    ensures r.Some? ==> pos < r.value.1 <= |ts|
  {
    if !Peek(ts, pos).TIdentifier? then None else
    var x := ts[pos].name;
    if !Peek(ts, pos + 1).TEqual? then Some((Declarator(x, None), pos + 1)) else
    var e := ParseExpr(ts, pos + 2, PREC_ASSIGNMENT);
    if e.None? then None else Some((Declarator(x, Some(e.value.0)), e.value.1))
  }

  /** `a = 1, b, c = 2` */
  function ParseVars(ts: Tokens, pos: nat): (r: Parsed<seq<Declarator>>)
    ensures r.Some? ==> pos < r.value.1 <= |ts|
    decreases |ts| - pos
  {
    var d := ParseDeclarator(ts, pos);
    if d.None? then None
    else if !Peek(ts, d.value.1).TComma? then Some(([d.value.0], d.value.1))
    else
      var rest := ParseVars(ts, SkipLines(ts, d.value.1 + 1));
      if rest.None? then None else Some(([d.value.0] + rest.value.0, rest.value.1))
  }

  function Declares(vars: seq<Declarator>, rest: Decls): Decls {
    if vars == [] then rest else Declare(vars[0].name, vars[0].init, Declares(vars[1..], rest))
  }

  /** A statement, with the newlines around it. */
  function ParseStmt(ts: Tokens, pos: nat): (r: Parsed<Stmt>)
    ensures r.Some? ==> pos < r.value.1 <= |ts|
    decreases |ts| - pos, 5
  {
    var start := SkipLines(ts, pos);
    if start >= |ts| then None else
    var s := ParseBare(ts, start);
    if s.None? then None else Some((s.value.0, SkipLines(ts, s.value.1)))
  }

  function ParseBare(ts: Tokens, pos: nat): (r: Parsed<Stmt>)
    requires pos < |ts|
    ensures r.Some? ==> pos < r.value.1 <= |ts|
    decreases |ts| - pos, 4
  {
    match ts[pos]
    case TEcho => (var e := ParseEnded(ts, pos + 1); if e.None? then None else Some((Echo(e.value.0), e.value.1)))
    case TIf => ParseIf(ts, pos + 1)
    case TDo => ParseDo(ts, pos + 1)
    case TWhile => ParseWhile(ts, pos + 1)
    case TIter => ParseIter(ts, pos + 1)
    case TUsing => ParseUsing(ts, pos + 1)
    case TContinue =>
      (var end := StatementEnd(ts, pos + 1); if end.None? then None else Some((Continue, end.value)))
    case TBreak =>
      (var end := StatementEnd(ts, pos + 1); if end.None? then None else Some((Break, end.value)))
    case TReturn => ParseReturn(ts, pos + 1)
    case TLBrace =>
      (var ds := ParseBlock(ts, pos + 1); if ds.None? then None else Some((Block(ds.value.0), ds.value.1)))
    case _ => (var e := ParseEnded(ts, pos); if e.None? then None else Some((Eval(e.value.0), e.value.1)))
  }

  /** An `if` without `else` has an empty second arm. */
  function ParseIf(ts: Tokens, pos: nat): (r: Parsed<Stmt>)
    requires pos <= |ts|
    ensures r.Some? ==> pos <= r.value.1 <= |ts|
    decreases |ts| - pos, 3
  {
    var e := ParseExpr(ts, pos, PREC_ASSIGNMENT);
    if e.None? then None else
    var t := ParseStmt(ts, e.value.1);
    if t.None? then None
    else if !Peek(ts, t.value.1).TElse? then Some((If(e.value.0, t.value.0, Skip), t.value.1))
    else
      var f := ParseStmt(ts, t.value.1 + 1);
      if f.None? then None else Some((If(e.value.0, t.value.0, f.value.0), f.value.1))
  }

  function ParseWhile(ts: Tokens, pos: nat): (r: Parsed<Stmt>)
    requires pos <= |ts|
    ensures r.Some? ==> pos <= r.value.1 <= |ts|
    decreases |ts| - pos, 3
  {
    var e := ParseExpr(ts, pos, PREC_ASSIGNMENT);
    if e.None? then None else
    var body := ParseStmt(ts, e.value.1);
    if body.None? then None else Some((While(e.value.0, body.value.0), body.value.1))
  }

  /** `do` takes no statement end after its condition. */
  function ParseDo(ts: Tokens, pos: nat): (r: Parsed<Stmt>)
    requires 0 < pos <= |ts|
    ensures r.Some? ==> pos <= r.value.1 <= |ts|
    decreases |ts| - pos, 6
  {
    var body := ParseStmt(ts, pos);
    if body.None? || !Peek(ts, body.value.1).TWhile? then None else
    var e := ParseExpr(ts, body.value.1 + 1, PREC_ASSIGNMENT);
    if e.None? then None else Some((DoWhile(body.value.0, e.value.0), e.value.1))
  }

  function ParseReturn(ts: Tokens, pos: nat): (r: Parsed<Stmt>)
    requires pos <= |ts|
    ensures r.Some? ==> pos <= r.value.1 <= |ts|
  {
    if Peek(ts, pos).TSemicolon? || Peek(ts, pos).TNewline? then Some((Return(None), pos + 1)) else
    var e := ParseEnded(ts, pos);
    if e.None? then None else Some((Return(Some(e.value.0)), e.value.1))
  }

  /** A block from after its opening brace to after its closing one. */
  function ParseBlock(ts: Tokens, pos: nat): (r: Parsed<Decls>)
    requires pos <= |ts|
    ensures r.Some? ==> pos <= r.value.1 <= |ts|
    decreases |ts| - pos, 7
  {
    var ds := ParseDecls(ts, SkipLines(ts, pos));
    if ds.None? || !Peek(ts, ds.value.1).TRBrace? then None else Some((ds.value.0, ds.value.1 + 1))
  }

  /** Declarations and statements up to a closing brace or the end of the file. */
  function ParseDecls(ts: Tokens, pos: nat): (r: Parsed<Decls>)
    requires pos <= |ts|
    ensures r.Some? ==> pos <= r.value.1 <= |ts|
    decreases |ts| - pos, 6
  {
    if Peek(ts, pos).TRBrace? || Peek(ts, pos).TEof? then Some((Done, pos)) else
    var start := SkipLines(ts, pos);
    if Peek(ts, start).TVar? then
      var vars := ParseVars(ts, start + 1);
      if vars.None? then None else
      var end := StatementEnd(ts, vars.value.1);
      if end.None? then None else
      var rest := ParseDecls(ts, SkipLines(ts, end.value));
      if rest.None? then None else Some((Declares(vars.value.0, rest.value.0), rest.value.1))
    else
      var s := ParseStmt(ts, start);
      if s.None? then None else
      var rest := ParseDecls(ts, s.value.1);
      if rest.None? then None else Some((Then(s.value.0, rest.value.0), rest.value.1))
  }

  // ----- iter -----

  function ParseInit(ts: Tokens, pos: nat): (r: Parsed<Decls>)
    requires pos <= |ts|
    ensures r.Some? ==> pos < r.value.1 <= |ts|
  {
    if Peek(ts, pos).TSemicolon? then Some((Done, pos + 1))
    else if Peek(ts, pos).TVar? then
      var vars := ParseVars(ts, pos + 1);
      if vars.None? || !Peek(ts, vars.value.1).TSemicolon? then None
      else Some((Declares(vars.value.0, Done), SkipLines(ts, vars.value.1 + 1)))
    else
      var e := ParseExpr(ts, pos, PREC_ASSIGNMENT);
      if e.None? || !Peek(ts, e.value.1).TSemicolon? then None
      else Some((Then(Eval(e.value.0), Done), SkipLines(ts, e.value.1 + 1)))
  }

  function ParseTest(ts: Tokens, pos: nat): (r: Parsed<Option<Expr>>)
    requires pos <= |ts|
    ensures r.Some? ==> pos < r.value.1 <= |ts|
  {
    if Peek(ts, pos).TSemicolon? then Some((None, pos + 1)) else
    var e := ParseExpr(ts, pos, PREC_ASSIGNMENT);
    if e.None? || !Peek(ts, e.value.1).TSemicolon? then None
    else Some((Some(e.value.0), SkipLines(ts, e.value.1 + 1)))
  }

  /** The increment is missing only when the body, in braces, follows at once. */
  function ParseIncrement(ts: Tokens, pos: nat): (r: Parsed<Option<Expr>>)
    requires pos <= |ts|
    ensures r.Some? ==> pos <= r.value.1 <= |ts|
  {
    if Peek(ts, pos).TLBrace? then Some((None, pos)) else
    var e := ParseExpr(ts, pos, PREC_ASSIGNMENT);
    if e.None? then None else Some((Some(e.value.0), SkipLines(ts, e.value.1)))
  }

  function ParseIter(ts: Tokens, pos: nat): (r: Parsed<Stmt>)
    requires pos <= |ts|
    ensures r.Some? ==> pos <= r.value.1 <= |ts|
    decreases |ts| - pos, 3
  {
    var init := ParseInit(ts, pos);
    if init.None? then None else
    var loop := ParseIterLoop(ts, init.value.1);
    if loop.None? then None
    else Some((Block(Append(init.value.0, Then(loop.value.0, Done))), loop.value.1))
  }

  function ParseIterLoop(ts: Tokens, pos: nat): (r: Parsed<Stmt>)
    requires pos <= |ts|
    ensures r.Some? ==> pos <= r.value.1 <= |ts|
    decreases |ts| - pos, 3
  {
    var cond := ParseTest(ts, pos);
    if cond.None? then None else
    var incr := ParseIncrement(ts, cond.value.1);
    if incr.None? then None else
    var body := ParseStmt(ts, incr.value.1);
    if body.None? then None else Some((IterLoop(cond.value.0, incr.value.0, body.value.0), body.value.1))
  }

  // ----- using -----

  /** The constants of a `when`. */
  function ParseLabels(ts: Tokens, pos: nat): (r: Parsed<seq<Literal>>)
    requires pos <= |ts|
    ensures r.Some? ==> pos < r.value.1 <= |ts| && LNil !in r.value.0
    decreases |ts| - pos
  {
    if !Peek(ts, pos).TLiteral? || ts[pos].lit == LNil then None
    else if !Peek(ts, pos + 1).TComma? then Some(([ts[pos].lit], pos + 1))
    else
      var rest := ParseLabels(ts, pos + 2);
      if rest.None? then None else Some(([ts[pos].lit] + rest.value.0, rest.value.1))
  }

  predicate EndsCase(t: Token) { t.TWhen? || t.TDefault? || t.TRBrace? || t.TEof? }

  /** The statements of one case. */
  function ParseCaseBody(ts: Tokens, pos: nat): (r: Parsed<Stmt>)
    requires pos <= |ts|
    ensures r.Some? ==> pos <= r.value.1 <= |ts| && EndsCase(Peek(ts, r.value.1))
    decreases |ts| - pos, 6
  {
    if EndsCase(Peek(ts, pos)) then Some((Skip, pos)) else
    var s := ParseStmt(ts, pos);
    if s.None? then None else
    var rest := ParseCaseBody(ts, s.value.1);
    if rest.None? then None else Some((Seq(s.value.0, rest.value.0), rest.value.1))
  }

  /** The cases up to the closing brace; nothing may follow the default but its statements. */
  function ParseCases(ts: Tokens, pos: nat): (r: Parsed<Cases>)
    requires pos <= |ts|
    ensures r.Some? ==> pos <= r.value.1 <= |ts|
    decreases |ts| - pos, 7
  {
    match Peek(ts, pos)
    case TRBrace => Some((NoCase, pos + 1))
    case TEof => Some((NoCase, pos))
    case TWhen =>
      var labels := ParseLabels(ts, pos + 1);
      if labels.None? then None else
      var body := ParseCaseBody(ts, labels.value.1);
      if body.None? then None else
      var rest := ParseCases(ts, body.value.1);
      if rest.None? then None else Some((When(labels.value.0, body.value.0, rest.value.0), rest.value.1))
    case TDefault =>
      var body := ParseCaseBody(ts, pos + 1);
      if body.None? then None
      else if Peek(ts, body.value.1).TRBrace? then Some((Default(body.value.0), body.value.1 + 1))
      else if Peek(ts, body.value.1).TEof? then Some((Default(body.value.0), body.value.1))
      else None
    case _ => None
  }

  function ParseUsing(ts: Tokens, pos: nat): (r: Parsed<Stmt>)
    requires pos <= |ts|
    ensures r.Some? ==> pos <= r.value.1 <= |ts|
    decreases |ts| - pos, 3
  {
    var e := ParseExpr(ts, pos, PREC_ASSIGNMENT);
    if e.None? || !Peek(ts, e.value.1).TLBrace? then None else
    var cases := ParseCases(ts, SkipLines(ts, e.value.1 + 1));
    if cases.None? then None else Some((Using(e.value.0, cases.value.0), cases.value.1))
  }

  // ----- functions -----

  function ParseParams(ts: Tokens, pos: nat): (r: Parsed<seq<string>>)
    ensures r.Some? ==> pos < r.value.1 <= |ts|
    decreases |ts| - pos
  {
    var start := SkipLines(ts, pos);
    if !Peek(ts, start).TIdentifier? then None else
    var next := SkipLines(ts, start + 1);
    if !Peek(ts, next).TComma? then Some(([ts[start].name], next)) else
    var rest := ParseParams(ts, next + 1);
    if rest.None? then None else Some(([ts[start].name] + rest.value.0, rest.value.1))
  }

  /** A function from its opening parenthesis to the brace that ends its body. */
  function ParseFunction(ts: Tokens): (r: Parsed<Function>) {
    if !Peek(ts, 0).TLParen? then None else
    var params := if Peek(ts, 1).TRParen? then Some(([], 1)) else ParseParams(ts, 1);
    if params.None? || !Peek(ts, params.value.1).TRParen? then None else
    var open := SkipLines(ts, params.value.1 + 1);
    if !Peek(ts, open).TLBrace? then None else
    var body := ParseBlock(ts, open + 1);
    if body.None? then None else Some((Function(params.value.0, body.value.0), body.value.1))
  }
}
