/** The meaning of source programs, stated without reference to the compiler: lexical
    scopes are a stack of name tables, and loops run on a fuel budget. */
module Semantics {
  import opened Basics
  import opened Values
  import opened Syntax

  type Scope = map<string, Value>

  /** `scopes` runs from the outermost to the innermost open scope. */
  datatype Store = Store(scopes: seq<Scope>, globals: Scope, echoed: seq<Value>)

  datatype Outcome =
    | Normal(st: Store)
    | Continued(st: Store)
    | Broke(st: Store)
    | Returned(v: Value, st: Store)
    | Failed(st: Store)
    | Timeout

  datatype Evaluated = Got(v: Value, st: Store) | Raised(st: Store)

  // ----- names -----

  /** The innermost open scope that declares `x`, or -1. */
  function Lookup(scopes: seq<Scope>, x: string): (d: int)
    ensures -1 <= d < |scopes|
    ensures d >= 0 ==> x in scopes[d]
    ensures forall j :: d < j < |scopes| ==> x !in scopes[j]
  {
    if scopes == [] then -1
    else if x in scopes[|scopes| - 1] then |scopes| - 1
    else Lookup(scopes[..|scopes| - 1], x)
  }

  function Read(w: World, x: string, st: Store): (r: Evaluated)
    ensures |r.st.scopes| == |st.scopes|
  {
    var d := Lookup(st.scopes, x);
    if d >= 0 then Got(st.scopes[d][x], st)
    else if x in st.globals then Got(st.globals[x], st)
    else if x in w.builtins then Got(w.builtins[x], st)
    else Raised(st)
  }

  /** Assignment yields the assigned value; the empty value cannot be assigned, and a
      global must exist. */
  function Write(x: string, v: Value, st: Store): (r: Evaluated)
    ensures |r.st.scopes| == |st.scopes|
  {
    var d := Lookup(st.scopes, x);
    if v == Empty then Raised(st)
    else if d >= 0 then Got(v, st.(scopes := st.scopes[d := st.scopes[d][x := v]]))
    else if x in st.globals then Got(v, st.(globals := st.globals[x := v]))
    else Raised(st)
  }

  function Bind(scopes: seq<Scope>, x: string, v: Value): seq<Scope> {
    if scopes == [] then [map[x := v]]
    else scopes[|scopes| - 1 := scopes[|scopes| - 1][x := v]]
  }

  function Enter(st: Store): Store { st.(scopes := st.scopes + [map[]]) }

  function Leave(st: Store): Store {
    if st.scopes == [] then st else st.(scopes := st.scopes[..|st.scopes| - 1])
  }

  // ----- operators -----

  /** Operations whose result only the host knows are keyed by their number. */
  function HostKey(op: BinOp): int {
    match op
    case Add => 0 case Mul => 1 case Div => 2 case Rem => 3 case Pow => 4 case FloorDiv => 5
    case BitAnd => 6 case BitOr => 7 case BitXor => 8 case Shl => 9 case Shr => 10
    case Range => 11 case Sub => 12
    case Eq => 13 case Ne => 14 case Gt => 15 case Ge => 16 case Lt => 17 case Le => 18
  }

  /** Numbers take part in arithmetic, and so do booleans, true as one and false as zero; nothing else. */
  lemma {:induction false} WhatCounts(v: Value, n: real)
    ensures Numeric(v) <==> v == Bool(true) || v == Bool(false) || v.Number?
    ensures AsReal(Number(n)) == n && AsReal(Bool(true)) == 1.0 && AsReal(Bool(false)) == 0.0
  {}

  function Apply(w: World, op: BinOp, a: Value, b: Value): Option<Value> {
    if op.Eq? then Some(Bool(a == b))
    else if op.Ne? then Some(Bool(a != b))
    else if op.Range? then
      if a.Number? && b.Number? then w.arith(HostKey(op), a, b) else None
    else if Numeric(a) && Numeric(b) then
      match op
      case Add => Some(Number(AsReal(a) + AsReal(b)))
      case Sub => Some(Number(AsReal(a) - AsReal(b)))
      case Mul => Some(Number(AsReal(a) * AsReal(b)))
      case Gt => Some(Bool(AsReal(a) > AsReal(b)))
      case Ge => Some(Bool(AsReal(a) >= AsReal(b)))
      case Lt => Some(Bool(AsReal(a) < AsReal(b)))
      case Le => Some(Bool(AsReal(a) <= AsReal(b)))
      case _ => w.arith(HostKey(op), a, b)
    else if op.Add? || op.Mul? then w.arith(HostKey(op), a, b)
    else None
  }

  /** What counts as false: nil, the empty value, false, numbers below zero, the empty string, and such
      objects as the host says. The machine's test agrees. */
  predicate Falsy(w: World, v: Value): (f: bool)
    ensures f == IsFalse(w, v)
  {
    v == Nil || v == Empty || v == Bool(false) || (v.Number? && v.n < 0.0) || v == Str("") || (v.Obj? && w.falsy(v.ref))
  }

  /** The operator in a compound assignment. The compiler's table agrees. */
  function Compounds(a: AssignOp): (op: BinOp)
    ensures op == PlainOp(a)
  {
    if a == AddEq then Add else if a == SubEq then Sub else if a == MulEq then Mul else if a == DivEq then Div
    else if a == PowEq then Pow else if a == RemEq then Rem else if a == FloorDivEq then FloorDiv
    else if a == AndEq then BitAnd else if a == OrEq then BitOr else if a == XorEq then BitXor
    else if a == ShlEq then Shl else Shr
  }

  function ApplyUnary(w: World, op: UnOp, a: Value): Option<Value> {
    match op
    case UPlus => Some(a)
    case Not => Some(Bool(Falsy(w, a)))
    case Negate => if a.Number? then Some(Number(-a.n)) else None
    case BitNot => if a.Number? then Some(Number(w.bitNot(a.n))) else None
  }

  /** What a literal stands for. The compiler's constants agree. */
  function Meant(l: Literal): (v: Value)
    ensures v == LiteralValue(l)
  {
    if l.LNumber? then Number(l.n) else if l.LString? then Str(l.s) else if l.LNil? then Nil else Bool(l == LTrue)
  }

  // ----- expressions -----

  function Evaluate(w: World, e: Expr, st: Store): (r: Evaluated)
    ensures |r.st.scopes| == |st.scopes|
  {
    match e
    case Lit(l) => Got(Meant(l), st)
    case Var(x) => Read(w, x, st)
    case Assign(x, rhs) =>
      var r := Evaluate(w, rhs, st);
      if r.Raised? then r else Write(x, r.v, r.st)
    case Update(x, aop, rhs) =>
      var l := Read(w, x, st);
      if l.Raised? then l else
      var r := Evaluate(w, rhs, l.st);
      if r.Raised? then r else Combine(w, Compounds(aop), x, l.v, r.v, r.st)
    case Step(x, up) =>
      var l := Read(w, x, st);
      if l.Raised? then l else
      Combine(w, if up then Add else Sub, x, l.v, Number(1.0), l.st)
    case Unary(op, a) =>
      var r := Evaluate(w, a, st);
      if r.Raised? then r else Yield(ApplyUnary(w, op, r.v), r.st)
    case Binary(op, l, r) =>
      var x := Evaluate(w, l, st);
      if x.Raised? then x else
      var y := Evaluate(w, r, x.st);
      if y.Raised? then y else Yield(Apply(w, op, x.v, y.v), y.st)
    case And(l, r) =>
      var x := Evaluate(w, l, st);
      if x.Raised? || Falsy(w, x.v) then x else Evaluate(w, r, x.st)
    case Or(l, r) =>
      var x := Evaluate(w, l, st);
      if x.Raised? || !Falsy(w, x.v) then x else Evaluate(w, r, x.st)
    case Cond(c, t, f) =>
      var x := Evaluate(w, c, st);
      if x.Raised? then x
      else if Falsy(w, x.v) then Evaluate(w, f, x.st)
      else Evaluate(w, t, x.st)
  }

  function Yield(v: Option<Value>, st: Store): (r: Evaluated)
    ensures |r.st.scopes| == |st.scopes|
  {
    if v.None? then Raised(st) else Got(v.value, st)
  }

  function Combine(w: World, op: BinOp, x: string, a: Value, b: Value, st: Store): (r: Evaluated)
    ensures |r.st.scopes| == |st.scopes|
  {
    match Apply(w, op, a, b)
    case None => Raised(st)
    case Some(v) => Write(x, v, st)
  }

  // ----- statements -----

  function Exec(w: World, fuel: nat, s: Stmt, st: Store): Outcome
    decreases fuel, s
  {
    match s
    case Skip => Normal(st)
    case Seq(s1, s2) =>
      var o := Exec(w, fuel, s1, st);
      if o.Normal? then Exec(w, fuel, s2, o.st) else o
    case Eval(e) =>
      var r := Evaluate(w, e, st);
      if r.Raised? then Failed(r.st) else Normal(r.st)
    case Echo(e) =>
      var r := Evaluate(w, e, st);
      if r.Raised? then Failed(r.st)
      else Normal(r.st.(echoed := r.st.echoed + [r.v]))
    case Block(ds) => LeaveScope(ExecDecls(w, fuel, ds, Enter(st)))
    case If(e, t, f) =>
      var r := Evaluate(w, e, st);
      if r.Raised? then Failed(r.st)
      else if Falsy(w, r.v) then Exec(w, fuel, f, r.st)
      else Exec(w, fuel, t, r.st)
    case While(e, body) =>
      if fuel == 0 then Timeout else
      var r := Evaluate(w, e, st);
      if r.Raised? then Failed(r.st)
      else if Falsy(w, r.v) then Normal(r.st)
      else
        var o := Exec(w, fuel, body, r.st);
        if o.Normal? || o.Continued? then Exec(w, fuel - 1, s, o.st)
        else LoopExit(o)
    case DoWhile(body, e) =>
      // `continue` starts the body again without the test: nothing but the emitted code says
      // so, since the loop start it records is that of the body.
      if fuel == 0 then Timeout else
      var o := Exec(w, fuel, body, st);
      if o.Continued? then Exec(w, fuel - 1, s, o.st)
      else if !o.Normal? then LoopExit(o)
      else
        var r := Evaluate(w, e, o.st);
        if r.Raised? then Failed(r.st)
        else if Falsy(w, r.v) then Normal(r.st)
        else Exec(w, fuel - 1, s, r.st)
    case IterLoop(cond, incr, body) =>
      if fuel == 0 then Timeout else
      var c := Holds(w, cond, st);
      if c.Raised? then Failed(c.st)
      else if Falsy(w, c.v) then Normal(c.st)
      else
        var o := Exec(w, fuel, body, c.st);
        if o.Normal? || o.Continued? then
          var i := Holds(w, incr, o.st);
          if i.Raised? then Failed(i.st) else Exec(w, fuel - 1, s, i.st)
        else LoopExit(o)
    case Using(e, cases) =>
      var r := Evaluate(w, e, st);
      if r.Raised? then Failed(r.st) else
      var body := Chosen(cases, r.v);
      if body.Some? then Exec(w, fuel, body.value, r.st) else Normal(r.st)
    case Continue => Continued(st)
    case Break => Broke(st)
    case Return(None) => Returned(Empty, st)
    case Return(Some(e)) =>
      var r := Evaluate(w, e, st);
      if r.Raised? then Failed(r.st) else Returned(r.v, r.st)
  }

  function ExecDecls(w: World, fuel: nat, ds: Decls, st: Store): Outcome
    decreases fuel, ds
  {
    match ds
    case Done => Normal(st)
    case Declare(x, init, rest) =>
      var r := if init.None? then Got(Nil, st) else Evaluate(w, init.value, st);
      if r.Raised? then Failed(r.st)
      else ExecDecls(w, fuel, rest, r.st.(scopes := Bind(r.st.scopes, x, r.v)))
    case Then(s, rest) =>
      var o := Exec(w, fuel, s, st);
      if o.Normal? then ExecDecls(w, fuel, rest, o.st) else o
  }

  /** A missing loop condition holds; a missing increment does nothing. */
  function Holds(w: World, e: Option<Expr>, st: Store): (r: Evaluated)
    ensures |r.st.scopes| == |st.scopes|
  {
    if e.None? then Got(Bool(true), st) else Evaluate(w, e.value, st)
  }

  function LeaveScope(o: Outcome): Outcome {
    match o
    case Normal(st) => Normal(Leave(st))
    case Continued(st) => Continued(Leave(st))
    case Broke(st) => Broke(Leave(st))
    case _ => o
  }

  function LoopExit(o: Outcome): Outcome {
    if o.Broke? then Normal(o.st) else o
  }

  /** The body of the last `when` that lists `v`. */
  function LastMatch(cases: Cases, v: Value): (r: Option<Stmt>)
    ensures r.Some? ==> r.value < cases
  {
    match cases
    case NoCase => None
    case Default(_) => None
    case When(labels, body, rest) =>
      var later := LastMatch(rest, v);
      if later.Some? then later
      else if Lists(labels, v) then Some(body)
      else None
  }

  function DefaultBody(cases: Cases): (r: Option<Stmt>)
    ensures r.Some? ==> r.value < cases
  {
    match cases
    case NoCase => None
    case Default(body) => Some(body)
    case When(_, _, rest) => DefaultBody(rest)
  }

  /** What a `using` statement runs for `v`. */
  function Chosen(cases: Cases, v: Value): Option<Stmt> {
    var m := LastMatch(cases, v);
    if m.Some? then m else DefaultBody(cases)
  }

  predicate Lists(labels: seq<Literal>, v: Value) {
    exists i :: 0 <= i < |labels| && Meant(labels[i]) == v
  }

  // ----- whole calls -----

  datatype Result =
    | Gives(v: Value, globals: Scope, echoed: seq<Value>)
    | Errs(globals: Scope, echoed: seq<Value>)
    | OutOfFuel

  /** Parameters live in the scope of the body; the callee itself sits, nameless, in an
      outer scope of its own. */
  function Entry(f: Function, callee: Value, args: seq<Value>, globals: Scope): Store
    requires |args| == |f.params|
  {
    Store([map["" := callee], BindAll(f.params, args)], globals, [])
  }

  function BindAll(names: seq<string>, vs: seq<Value>): (m: Scope)
    requires |names| == |vs|
    ensures forall x :: x in m <==> x in names
  {
    if names == [] then map[]
    else BindAll(names[..|names| - 1], vs[..|vs| - 1])[names[|names| - 1] := vs[|vs| - 1]]
  }

  /** Falling off the end of the body returns the empty value. */
  function Call(w: World, fuel: nat, f: Function, callee: Value,
                args: seq<Value>, globals: Scope): Result
    requires |args| == |f.params|
  {
    match ExecDecls(w, fuel, f.body, Entry(f, callee, args, globals))
    case Normal(st) => Gives(Empty, st.globals, st.echoed)
    case Continued(st) => Gives(Empty, st.globals, st.echoed)
    case Broke(st) => Gives(Empty, st.globals, st.echoed)
    case Returned(v, st) => Gives(v, st.globals, st.echoed)
    case Failed(st) => Errs(st.globals, st.echoed)
    case Timeout => OutOfFuel
  }
}
