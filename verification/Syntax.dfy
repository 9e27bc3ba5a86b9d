/** Source programs: function bodies over locals, globals, operators and control flow. */
module Syntax {
  import opened Basics
  import opened Values

  datatype UnOp = UPlus | Negate | Not | BitNot

  datatype BinOp =
    | Add | Sub | Mul | Div | Rem | Pow | FloorDiv
    | Eq | Ne | Gt | Ge | Lt | Le
    | BitAnd | BitOr | BitXor | Shl | Shr
    | Range

  /** Operators with a compound assignment form (`+=` and so on). */
  datatype AssignOp =
    | AddEq | SubEq | MulEq | DivEq | PowEq | RemEq | FloorDivEq
    | AndEq | OrEq | XorEq | ShlEq | ShrEq

  datatype Literal = LNil | LTrue | LFalse | LNumber(n: real) | LString(s: string)

  datatype Expr =
    | Lit(lit: Literal)
    | Var(name: string)
    | Assign(name: string, rhs: Expr)
    | Update(name: string, aop: AssignOp, rhs: Expr)
    | Step(name: string, up: bool)
    | Unary(uop: UnOp, arg: Expr)
    | Binary(bop: BinOp, left: Expr, right: Expr)
    | And(left: Expr, right: Expr)
    | Or(left: Expr, right: Expr)
    | Cond(cond: Expr, thn: Expr, els: Expr)

  datatype Stmt =
    | Skip
    | Seq(first: Stmt, second: Stmt)
    | Eval(e: Expr)
    | Echo(e: Expr)
    | Block(body: Decls)
    | If(e: Expr, thn: Stmt, els: Stmt)
    | While(e: Expr, loop: Stmt)
    | DoWhile(loop: Stmt, e: Expr)
    | IterLoop(cond: Option<Expr>, incr: Option<Expr>, loop: Stmt)
    | Using(e: Expr, cases: Cases)
    | Continue
    | Break
    | Return(result: Option<Expr>)

  /** What may stand directly in a block: declarations and statements. */
  datatype Decls =
    | Done
    | Declare(name: string, init: Option<Expr>, rest: Decls)
    | Then(stmt: Stmt, rest: Decls)

  /** The cases of a `using` statement; the default, if any, comes last. */
  datatype Cases =
    | NoCase
    | Default(body: Stmt)
    | When(labels: seq<Literal>, body: Stmt, rest: Cases)

  datatype Function = Function(params: seq<string>, body: Decls)

  /** `iter` opens a scope, runs its initializer there and then the loop: a block of the
      initializer's declarations with an `IterLoop` appended. */
  function Append(a: Decls, b: Decls): Decls {
    match a
    case Done => b
    case Declare(x, i, r) => Declare(x, i, Append(r, b))
    case Then(s, r) => Then(s, Append(r, b))
  }

  function LiteralValue(l: Literal): Value {
    match l
    case LNil => Nil
    case LTrue => Bool(true)
    case LFalse => Bool(false)
    case LNumber(n) => Number(n)
    case LString(s) => Str(s)
  }

  function PlainOp(a: AssignOp): BinOp {
    match a
    case AddEq => Add case SubEq => Sub case MulEq => Mul case DivEq => Div
    case PowEq => Pow case RemEq => Rem case FloorDivEq => FloorDiv
    case AndEq => BitAnd case OrEq => BitOr case XorEq => BitXor
    case ShlEq => Shl case ShrEq => Shr
  }
}
