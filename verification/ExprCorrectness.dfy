/** Compiled expressions compute what the source expression means. */
module ExprCorrectness {
  import opened Basics
  import opened Values
  import opened Bytecode
  import opened Syntax
  import opened Semantics
  import opened Codegen
  import opened Machine

  // ----- names and slots -----

  /** Locals are listed outermost scope first, no name twice in a scope. */
  ghost predicate Ordered(locals: seq<Local>) {
    && |locals| <= MAX_LOCALS
    && forall i, j :: 0 <= i < j < |locals| ==> locals[i].depth <= locals[j].depth && locals[i] != locals[j]
  }

  ghost predicate Names(locals: seq<Local>, scopes: seq<Scope>) {
    && (forall i :: 0 <= i < |locals| ==>
          0 <= locals[i].depth < |scopes| && locals[i].name in scopes[locals[i].depth])
    && (forall d, x :: 0 <= d < |scopes| && x in scopes[d] ==> Local(x, d) in locals)
  }

  /** The compiler's list of locals describes exactly the names open in `scopes`. */
  ghost predicate Describes(locals: seq<Local>, scopes: seq<Scope>) {
    Ordered(locals) && Names(locals, scopes)
  }

  /** The frame slots that hold the variables of `scopes`, numbered by declaration order. */
  ghost function Slots(locals: seq<Local>, scopes: seq<Scope>): (s: seq<Value>)
    requires Describes(locals, scopes)
    ensures |s| == |locals|
    ensures forall i :: 0 <= i < |locals| ==> s[i] == scopes[locals[i].depth][locals[i].name]
  {
    seq(|locals|, i requires 0 <= i < |locals| => scopes[locals[i].depth][locals[i].name])
  }

  /** While an initializer is compiled, the variable it initializes is listed but not usable. */
  ghost predicate Extends(listed: seq<Local>, live: seq<Local>) {
    || listed == live
    || (|listed| == |live| + 1 && listed[..|live|] == live && listed[|live|].depth == -1)
  }

  /** Numbering locals by stack height implements lexical scoping: the newest listed local
      of a name is the innermost open declaration of that name. */
  lemma {:induction false} ResolveIsLookup(listed: seq<Local>, live: seq<Local>, scopes: seq<Scope>, x: string)
    requires Describes(live, scopes) && Extends(listed, live)
    requires var i := Resolve(listed, x); i < 0 || listed[i].depth != -1
    ensures Resolve(listed, x) == Resolve(live, x)
    ensures var i := Resolve(live, x); var d := Lookup(scopes, x);
            (i < 0 <==> d < 0) && (i >= 0 ==> live[i].depth == d)
  {
    hide Resolve, Lookup, Names;
    var i := Resolve(listed, x);
    assert i < |live|;
    SameNewest(listed, live, x);
    var d := Lookup(scopes, x);
    if d >= 0 {
      NamesListed(live, scopes, d, x);
      var j := IndexOf(live, Local(x, d));
      NewestFrom(live, x, j);
    }
    if i >= 0 { NamesOpen(live, scopes, i); }
  }

  lemma {:induction false} SameNewest(listed: seq<Local>, live: seq<Local>, x: string)
    requires Extends(listed, live) && Resolve(listed, x) < |live|
    ensures Resolve(listed, x) == Resolve(live, x)
  {
    hide Resolve;
    var i, j := Resolve(listed, x), Resolve(live, x);
    if i >= 0 { assert listed[i] == live[i]; }
    if j >= 0 { assert listed[j] == live[j]; }
  }

  lemma {:induction false} NamesListed(live: seq<Local>, scopes: seq<Scope>, d: nat, x: string)
    requires Names(live, scopes) && d < |scopes| && x in scopes[d]
    ensures Local(x, d) in live
  {}

  lemma {:induction false} NamesOpen(live: seq<Local>, scopes: seq<Scope>, i: nat)
    requires Names(live, scopes) && i < |live|
    ensures 0 <= live[i].depth < |scopes| && live[i].name in scopes[live[i].depth]
  {}

  lemma {:induction false} IndexOf(live: seq<Local>, l: Local) returns (j: nat)
    requires l in live
    ensures j < |live| && live[j] == l
  {
    j :| 0 <= j < |live| && live[j] == l;
  }

  lemma {:induction false} NewestFrom(live: seq<Local>, x: string, j: nat)
    requires j < |live| && live[j].name == x
    ensures j <= Resolve(live, x)
  {
    hide Resolve;
  }

  lemma {:induction false} UpdateKeeps(live: seq<Local>, scopes: seq<Scope>, d: nat, x: string, v: Value)
    requires Describes(live, scopes) && d < |scopes| && x in scopes[d]
    ensures Describes(live, scopes[d := scopes[d][x := v]])
  {
    var scopes' := scopes[d := scopes[d][x := v]];
    forall e, y | 0 <= e < |scopes'| && y in scopes'[e] ensures Local(y, e) in live {
      assert y in scopes[e];
    }
  }

  /** Storing to the slot of a name and binding the name in its scope are the same. */
  lemma {:induction false} SlotUpdate(live: seq<Local>, scopes: seq<Scope>, x: string, v: Value)
    requires Describes(live, scopes) && Lookup(scopes, x) >= 0
    ensures var d := Lookup(scopes, x); var i := Resolve(live, x);
            && i >= 0
            && Describes(live, scopes[d := scopes[d][x := v]])
            && Slots(live, scopes[d := scopes[d][x := v]]) == Slots(live, scopes)[i := v]
  {
    hide Lookup, Resolve;
    ResolveIsLookup(live, live, scopes, x);
    var d := Lookup(scopes, x);
    var i := Resolve(live, x);
    UpdateKeeps(live, scopes, d, x, v);
    var a, b := Slots(live, scopes[d := scopes[d][x := v]]), Slots(live, scopes)[i := v];
    assert live[i] == Local(x, d);
    forall j | 0 <= j < |live| ensures a[j] == b[j] {
      if j != i { assert live[j] != live[i]; }
    }
  }

  // ----- machine states that represent stores -----

  /** The machine at byte `ip` holding the variables of `st` and, above them, `temps`. */
  ghost function At(ip: nat, live: seq<Local>, st: Store, temps: seq<Value>): State
    requires Describes(live, st.scopes)
  {
    Running(ip, Slots(live, st.scopes) + temps, st.globals, st.echoed)
  }

  ghost predicate ConstsAt(consts: seq<Const>, k: nat, part: seq<Const>) {
    && k + |part| <= |consts|
    && forall j :: 0 <= j < |part| ==> consts[k + j] == part[j]
  }

  lemma {:induction false} ConstsSplit(consts: seq<Const>, k: nat, a: seq<Const>, b: seq<Const>)
    requires ConstsAt(consts, k, a + b)
    ensures ConstsAt(consts, k, a) && ConstsAt(consts, k + |a|, b)
  {
    forall j | 0 <= j < |a| ensures consts[k + j] == a[j] {
      assert (a + b)[j] == a[j];
    }
    forall j | 0 <= j < |b| ensures consts[k + |a| + j] == b[j] {
      assert consts[k + (|a| + j)] == (a + b)[|a| + j];
    }
  }

  ghost predicate Has(p: Program, at: nat, c: Code) { CodeAt(p.code, at, c) }

  lemma {:induction false} HasCat(p: Program, at: nat, a: Code, b: Code)
    requires Has(p, at, Cat(a, b))
    ensures Has(p, at, a) && Has(p, at + Size(a), b)
  {}

  /** Error-free output `o` is in place in the program. */
  ghost predicate Sits(p: Program, at: nat, k: nat, o: Out) {
    o.ok && Has(p, at, o.code) && ConstsAt(p.consts, k, o.consts)
  }

  /** The machine has done what the expression asks: pushed its value, or raised. */
  ghost predicate Reaches(w: World, p: Program, s: State, n: nat, r: Evaluated, ip: nat,
                          live: seq<Local>, temps: seq<Value>)
  {
    match r
    case Got(v, st) => Describes(live, st.scopes) && Steps(w, p, s, n) == At(ip, live, st, temps + [v])
    case Raised(st) => Steps(w, p, s, n) == Errored(st.globals, st.echoed)
  }

  // ----- single instructions -----

  lemma {:induction false} StepPlain(w: World, p: Program, s: State, op: byte)
    requires s.Running? && Has(p, s.ip, Op(op)) && !HasOperand(op)
    ensures Steps(w, p, s, 1) == Machine.Step(w, p, s) == StepOp(w, op, s)
  {
    assert Steps(w, p, Machine.Step(w, p, s), 0) == Machine.Step(w, p, s);
  }

  lemma {:induction false} StepArg(w: World, p: Program, s: State, op: byte, n: nat)
    requires s.Running? && Has(p, s.ip, Op16(op, n)) && HasOperand(op) && n < 65536
    ensures Steps(w, p, s, 1) == Machine.Step(w, p, s) == StepOp16(w, p, op, n, s)
  {
    OperandAt(p.code, s.ip, op, n);
    assert Steps(w, p, Machine.Step(w, p, s), 0) == Machine.Step(w, p, s);
  }

  /** Loading a name reads it. */
  lemma {:induction false} GetRuns(w: World, p: Program, listed: seq<Local>, live: seq<Local>, x: string, k: nat,
                at: nat, st: Store, temps: seq<Value>)
    requires Describes(live, st.scopes) && Extends(listed, live)
    requires var pl := PlaceOf(listed, x, k);
             pl.ok && Has(p, at, Get(pl)) && ConstsAt(p.consts, k, pl.consts)
    ensures Reaches(w, p, At(at, live, st, temps), 1, Read(w, x, st), at + 3, live, temps)
  {
    hide Has, Machine.Step, Resolve, Lookup;
    var pl := PlaceOf(listed, x, k);
    ResolveIsLookup(listed, live, st.scopes, x);
    var s := At(at, live, st, temps);
    if pl.local {
      StepArg(w, p, s, OP_GET_LOCAL, pl.arg);
      assert s.stack[pl.arg] == st.scopes[Lookup(st.scopes, x)][x];
      assert s.stack + [s.stack[pl.arg]] == Slots(live, st.scopes) + (temps + [s.stack[pl.arg]]);
    } else {
      StepArg(w, p, s, OP_GET_GLOBAL, k);
      assert p.consts[k + 0] == pl.consts[0];
      forall v ensures s.stack + [v] == Slots(live, st.scopes) + (temps + [v]) {}
    }
  }

  /** Storing to a name writes it and leaves the value on the stack. */
  lemma {:induction false} SetRuns(w: World, p: Program, listed: seq<Local>, live: seq<Local>, x: string, k: nat,
                at: nat, st: Store, temps: seq<Value>, v: Value)
    requires Describes(live, st.scopes) && Extends(listed, live)
    requires var pl := PlaceOf(listed, x, k);
             pl.ok && Has(p, at, Set(pl)) && ConstsAt(p.consts, k, pl.consts)
    ensures Reaches(w, p, At(at, live, st, temps + [v]), 1, Write(x, v, st), at + 3, live, temps)
  {
    hide Has, Machine.Step, Resolve, Lookup, Names;
    var pl := PlaceOf(listed, x, k);
    ResolveIsLookup(listed, live, st.scopes, x);
    var s := At(at, live, st, temps + [v]);
    assert Peek(s.stack, 0) == v;
    if pl.local {
      StepArg(w, p, s, OP_SET_LOCAL, pl.arg);
      SlotUpdate(live, st.scopes, x, v);
      assert s.stack[pl.arg := v] == Slots(live, st.scopes)[pl.arg := v] + (temps + [v]);
    } else {
      StepArg(w, p, s, OP_SET_GLOBAL, k);
      assert p.consts[k + 0] == pl.consts[0];
    }
  }

  lemma {:induction false} OperatorRuns(w: World, p: Program, op: byte, live: seq<Local>, at: nat, st: Store,
                                        temps: seq<Value>, a: Value, b: Value)
    requires Describes(live, st.scopes) && Has(p, at, Op(op)) && IsBinary(op)
    ensures Reaches(w, p, At(at, live, st, temps + [a, b]), 1, Yield(BinaryOp(w, op, a, b), st), at + 1, live, temps)
  {
    hide Describes, Slots, BinaryOp, Machine.Step;
    var s := At(at, live, st, temps + [a, b]);
    StepPlain(w, p, s, op);
    assert Peek(s.stack, 0) == b && Peek(s.stack, 1) == a;
    var r := BinaryOp(w, op, a, b);
    if r.Some? {
      assert Drop(s.stack, 2) + [r.value] == Slots(live, st.scopes) + (temps + [r.value]);
    }
  }

  /** The instructions for a binary operator compute that operator. */
  lemma {:induction false} BinRuns(w: World, p: Program, op: BinOp, live: seq<Local>, at: nat, st: Store,
                                   temps: seq<Value>, a: Value, b: Value) returns (n: nat)
    requires Describes(live, st.scopes) && Has(p, at, BinCode(op))
    ensures Reaches(w, p, At(at, live, st, temps + [a, b]), n, Yield(Apply(w, op, a, b), st),
                    at + Size(BinCode(op)), live, temps)
  {
    hide Describes, At, Apply, BinaryOp, BinCode, Leading, Has, IsFalse, Falsy, IsBinary;
    BinCodeMeans(w, op, a, b);
    var first := Leading(op);
    if BinCode(op).Cat? { HasCat(p, at, Op(first), Op(OP_NOT)); }
    OperatorRuns(w, p, first, live, at, st, temps, a, b);
    n := 1;
    var r := BinaryOp(w, first, a, b);
    if r.Some? && BinCode(op).Cat? {
      NotRuns(w, p, live, at + 1, st, temps, r.value);
      StepsAdd(w, p, At(at, live, st, temps + [a, b]), 1, 1);
      n := 2;
    }
  }

  ghost function Leading(op: BinOp): byte {
    if BinCode(op).Cat? && BinCode(op).fst.One? then BinCode(op).fst.op
    else if BinCode(op).One? then BinCode(op).op else 0
  }

  /** `!=`, `>=` and `<=` are emitted as the opposite test followed by a negation. */
  lemma {:induction false} BinCodeMeans(w: World, op: BinOp, a: Value, b: Value)
    ensures var c := BinCode(op);
            && IsBinary(Leading(op)) && c == (if c.Cat? then Cat(Op(Leading(op)), Op(OP_NOT)) else Op(Leading(op)))
            && var r := BinaryOp(w, Leading(op), a, b);
               if c.Cat? && r.Some? then Apply(w, op, a, b) == Some(Bool(IsFalse(w, r.value)))
               else Apply(w, op, a, b) == r
  {
    hide BinCode, Leading, BinaryOp, Apply, IsBinary, IsFalse, Falsy;
    if op.Ne? || op.Ge? || op.Le? { NegatedMeans(w, op, a, b); } else { PlainMeans(w, op, a, b); }
  }

  lemma {:induction false} NegatedMeans(w: World, op: BinOp, a: Value, b: Value)
    requires op.Ne? || op.Ge? || op.Le?
    ensures var c := BinCode(op); var r := BinaryOp(w, Leading(op), a, b);
            && c.Cat? && IsBinary(Leading(op)) && c == Cat(Op(Leading(op)), Op(OP_NOT))
            && Apply(w, op, a, b) == if r.Some? then Some(Bool(IsFalse(w, r.value))) else r
  {}

  lemma {:induction false} PlainMeans(w: World, op: BinOp, a: Value, b: Value)
    requires !op.Ne? && !op.Ge? && !op.Le?
    ensures var c := BinCode(op);
            !c.Cat? && IsBinary(Leading(op)) && c == Op(Leading(op)) && Apply(w, op, a, b) == BinaryOp(w, Leading(op), a, b)
  {}

  lemma {:induction false} NotRuns(w: World, p: Program, live: seq<Local>, at: nat, st: Store, temps: seq<Value>, v: Value)
    requires Describes(live, st.scopes) && Has(p, at, Op(OP_NOT))
    ensures Steps(w, p, At(at, live, st, temps + [v]), 1) == At(at + 1, live, st, temps + [Bool(IsFalse(w, v))])
  {
    hide Describes, Slots, IsFalse, Falsy;
    var s := At(at, live, st, temps + [v]);
    StepPlain(w, p, s, OP_NOT);
    assert Peek(s.stack, 0) == v;
    assert Drop(s.stack, 1) + [Bool(IsFalse(w, v))] == Slots(live, st.scopes) + (temps + [Bool(IsFalse(w, v))]);
  }

  lemma {:induction false} UnRuns(w: World, p: Program, op: UnOp, live: seq<Local>, at: nat, st: Store, temps: seq<Value>, a: Value)
    returns (n: nat)
    requires Describes(live, st.scopes) && Has(p, at, UnCode(op))
    ensures Reaches(w, p, At(at, live, st, temps + [a]), n, Yield(ApplyUnary(w, op, a), st),
                    at + Size(UnCode(op)), live, temps)
  {
    hide Describes, Slots, IsFalse, Falsy, Machine.Step, ApplyUnary, UnaryOp, StepOp;
    if op.UPlus? {
      n := 0;
      PlusMeans(w, a);
    } else {
      n := 1;
      var k := UnMeans(w, op, a);
      UnStep(w, p, k, live, at, st, temps, a);
    }
  }

  lemma {:induction false} PlusMeans(w: World, a: Value)
    ensures ApplyUnary(w, UPlus, a) == Some(a)
  {}

  /** The instruction of a unary operator computes what the operator means. */
  lemma {:induction false} UnMeans(w: World, op: UnOp, a: Value) returns (k: byte)
    requires !op.UPlus?
    ensures UnCode(op) == Op(k) && IsUnary(k) && !HasOperand(k) && ApplyUnary(w, op, a) == UnaryOp(w, k, a)
  {
    hide IsFalse, Falsy;
    k := UnCode(op).op;
  }

  lemma {:induction false} UnStep(w: World, p: Program, k: byte, live: seq<Local>, at: nat, st: Store, temps: seq<Value>, a: Value)
    requires Describes(live, st.scopes) && Has(p, at, Op(k)) && IsUnary(k) && !HasOperand(k)
    ensures Reaches(w, p, At(at, live, st, temps + [a]), 1, Yield(UnaryOp(w, k, a), st), at + 1, live, temps)
  {
    hide Describes, Slots, UnaryOp, Machine.Step, BinaryOp;
    var s := At(at, live, st, temps + [a]);
    StepPlain(w, p, s, k);
    assert Peek(s.stack, 0) == a;
    var r := UnaryOp(w, k, a);
    if r.Some? { assert Drop(s.stack, 1) + [r.value] == Slots(live, st.scopes) + (temps + [r.value]); }
  }

  // ----- straight-line pieces -----

  /** Dropping the value just pushed. */
  lemma {:induction false} PopRuns(w: World, p: Program, live: seq<Local>, at: nat, st: Store, temps: seq<Value>, v: Value)
    requires Describes(live, st.scopes) && Has(p, at, Op(OP_POP))
    ensures Steps(w, p, At(at, live, st, temps + [v]), 1) == At(at + 1, live, st, temps)
  {
    var s := At(at, live, st, temps + [v]);
    StepPlain(w, p, s, OP_POP);
    assert Drop(s.stack, 1) == Slots(live, st.scopes) + temps;
  }

  /** A conditional jump looks at the top of the stack and leaves it there. */
  lemma {:induction false} TestRuns(w: World, p: Program, live: seq<Local>, at: nat, st: Store, temps: seq<Value>, v: Value, n: nat)
    requires Describes(live, st.scopes) && Has(p, at, Op16(OP_JUMP_IF_FALSE, n)) && n < 65536
    ensures Steps(w, p, At(at, live, st, temps + [v]), 1)
         == At(if IsFalse(w, v) then at + 3 + n else at + 3, live, st, temps + [v])
  {
    var s := At(at, live, st, temps + [v]);
    StepArg(w, p, s, OP_JUMP_IF_FALSE, n);
    assert Peek(s.stack, 0) == v;
  }

  /** Test the value on top; drop it and go on at `at + 4` when it holds, stay with it at the
      jump target when it does not. */
  lemma {:induction false} TestAndPop(w: World, p: Program, live: seq<Local>, at: nat, st: Store, temps: seq<Value>, v: Value, n: nat)
    requires Describes(live, st.scopes) && n < 65536
    requires Has(p, at, Op16(OP_JUMP_IF_FALSE, n)) && Has(p, at + 3, Op(OP_POP))
    ensures IsFalse(w, v) ==> Steps(w, p, At(at, live, st, temps + [v]), 1) == At(at + 3 + n, live, st, temps + [v])
    ensures !IsFalse(w, v) ==> Steps(w, p, At(at, live, st, temps + [v]), 2) == At(at + 4, live, st, temps)
  {
    TestRuns(w, p, live, at, st, temps, v, n);
    if !IsFalse(w, v) {
      PopRuns(w, p, live, at + 3, st, temps, v);
      StepsAdd(w, p, At(at, live, st, temps + [v]), 1, 1);
    }
  }

  lemma {:induction false} JumpRuns(w: World, p: Program, live: seq<Local>, at: nat, st: Store, temps: seq<Value>, n: nat)
    requires Describes(live, st.scopes) && Has(p, at, Op16(OP_JUMP, n)) && n < 65536
    ensures Steps(w, p, At(at, live, st, temps), 1) == At(at + 3 + n, live, st, temps)
  {
    hide Describes, Slots;
    StepArg(w, p, At(at, live, st, temps), OP_JUMP, n);
  }

  /** Shared end of the compound assignments: combine two operands and store the result. */
  lemma {:induction false} CombineRuns(w: World, p: Program, op: BinOp, x: string, listed: seq<Local>, live: seq<Local>,
                    k: nat, at: nat, st: Store, temps: seq<Value>, a: Value, b: Value)
    returns (n: nat)
    requires Describes(live, st.scopes) && Extends(listed, live)
    requires var pl := PlaceOf(listed, x, k);
             && pl.ok && Has(p, at, BinCode(op))
             && Has(p, at + Size(BinCode(op)), Set(pl)) && ConstsAt(p.consts, k, pl.consts)
    ensures Reaches(w, p, At(at, live, st, temps + [a, b]), n, Combine(w, op, x, a, b, st),
                    at + Size(BinCode(op)) + 3, live, temps)
  {
    hide Describes, Slots, Steps, BinCode, Apply, Has, PlaceOf, Write;
    n := BinRuns(w, p, op, live, at, st, temps, a, b);
    var r := Apply(w, op, a, b);
    if r.Some? {
      SetRuns(w, p, listed, live, x, k, at + Size(BinCode(op)), st, temps, r.value);
      StepsAdd(w, p, At(at, live, st, temps + [a, b]), n, 1);
      n := n + 1;
    }
  }

  // ----- layout of compound expressions -----

  lemma {:induction false} AssignSits(p: Program, at: nat, k: nat, pl: Place, r: Out)
    requires Sits(p, at, k, AssignOut(pl, r))
    ensures pl.ok && ConstsAt(p.consts, k, pl.consts)
    ensures Sits(p, at, k + |pl.consts|, r) && Has(p, at + Size(r.code), Set(pl))
  {
    hide Has, ConstsAt, Set;
    HasCat(p, at, r.code, Set(pl));
    ConstsSplit(p.consts, k, pl.consts, r.consts);
  }

  lemma {:induction false} UpdateSits(p: Program, at: nat, k: nat, pl: Place, r: Out, op: Code)
    requires Sits(p, at, k, UpdateOut(pl, r, op))
    ensures pl.ok && ConstsAt(p.consts, k, pl.consts) && Has(p, at, Get(pl))
    ensures Sits(p, at + 3, k + |pl.consts|, r) && Has(p, at + 3 + Size(r.code), op)
    ensures Has(p, at + 3 + Size(r.code) + Size(op), Set(pl))
  {
    hide Has, ConstsAt, Short;
    var tail := Cat(op, Set(pl));
    HasCat(p, at, Get(pl), Cat(r.code, tail));
    HasCat(p, at + 3, r.code, tail);
    HasCat(p, at + 3 + Size(r.code), op, Set(pl));
    ConstsSplit(p.consts, k, pl.consts, r.consts);
  }

  lemma {:induction false} UnarySits(p: Program, at: nat, k: nat, a: Out, op: Code)
    requires Sits(p, at, k, UnaryOut(a, op))
    ensures Sits(p, at, k, a) && Has(p, at + Size(a.code), op)
  {
    hide Has, ConstsAt;
    HasCat(p, at, a.code, op);
  }

  lemma {:induction false} BinarySits(p: Program, at: nat, k: nat, a: Out, b: Out, op: Code)
    requires Sits(p, at, k, BinaryOut(a, b, op))
    ensures Sits(p, at, k, a) && Sits(p, at + Size(a.code), k + |a.consts|, b)
    ensures Has(p, at + Size(a.code) + Size(b.code), op)
  {
    hide Has, ConstsAt;
    HasCat(p, at, a.code, Cat(b.code, op));
    HasCat(p, at + Size(a.code), b.code, op);
    ConstsSplit(p.consts, k, a.consts, b.consts);
  }

  lemma {:induction false} AndSits(p: Program, at: nat, k: nat, a: Out, b: Out)
    requires Sits(p, at, k, AndOut(a, b))
    ensures var at1 := at + Size(a.code);
            && Sits(p, at, k, a) && 1 + Size(b.code) <= MAX_OPERAND
            && Has(p, at1, Op16(OP_JUMP_IF_FALSE, 1 + Size(b.code))) && Has(p, at1 + 3, Op(OP_POP))
            && Sits(p, at1 + 4, k + |a.consts|, b)
  {
    hide Short, Has, ConstsAt;
    var at1 := at + Size(a.code);
    var test, arm := Op16(OP_JUMP_IF_FALSE, 1 + Size(b.code)), Cat(Op(OP_POP), b.code);
    HasCat(p, at, a.code, Cat(test, arm));
    HasCat(p, at1, test, arm);
    HasCat(p, at1 + 3, Op(OP_POP), b.code);
    ConstsSplit(p.consts, k, a.consts, b.consts);
  }

  lemma {:induction false} OrSits(p: Program, at: nat, k: nat, a: Out, b: Out)
    requires Sits(p, at, k, OrOut(a, b))
    ensures var at1 := at + Size(a.code);
            && Sits(p, at, k, a) && 1 + Size(b.code) <= MAX_OPERAND
            && Has(p, at1, Op16(OP_JUMP_IF_FALSE, 3)) && Has(p, at1 + 3, Op16(OP_JUMP, 1 + Size(b.code)))
            && Has(p, at1 + 6, Op(OP_POP)) && Sits(p, at1 + 7, k + |a.consts|, b)
  {
    hide Short, Has, ConstsAt;
    var at1 := at + Size(a.code);
    var test, skip, arm := Op16(OP_JUMP_IF_FALSE, 3), Op16(OP_JUMP, 1 + Size(b.code)), Cat(Op(OP_POP), b.code);
    HasCat(p, at, a.code, Cat(test, Cat(skip, arm)));
    HasCat(p, at1, test, Cat(skip, arm));
    HasCat(p, at1 + 3, skip, arm);
    HasCat(p, at1 + 6, Op(OP_POP), b.code);
    ConstsSplit(p.consts, k, a.consts, b.consts);
  }

  /** The parts of a two-way choice sit where the jumps expect them. */
  lemma {:induction false} BranchSits(p: Program, at: nat, k: nat, a: Out, b: Out, d: Out)
    requires Sits(p, at, k, BranchOut(a, b, d))
    ensures var at1 := at + Size(a.code); var at2 := at1 + 4 + Size(b.code);
            && Sits(p, at, k, a) && Has(p, at1, Op16(OP_JUMP_IF_FALSE, 4 + Size(b.code)))
            && Has(p, at1 + 3, Op(OP_POP)) && Sits(p, at1 + 4, k + |a.consts|, b)
            && Has(p, at2, Op16(OP_JUMP, 1 + Size(d.code))) && Has(p, at2 + 3, Op(OP_POP))
            && Sits(p, at2 + 4, k + |a.consts| + |b.consts|, d) && BranchFits(b.code, d.code)
  {
    hide Short, Has, ConstsAt;
    var at1 := at + Size(a.code);
    var at2 := at1 + 4 + Size(b.code);
    var test, skip := Op16(OP_JUMP_IF_FALSE, 4 + Size(b.code)), Op16(OP_JUMP, 1 + Size(d.code));
    var arm := Cat(Op(OP_POP), d.code);
    var arms := Cat(Op(OP_POP), Cat(b.code, Cat(skip, arm)));
    HasCat(p, at, a.code, Cat(test, arms));
    HasCat(p, at1, test, arms);
    HasCat(p, at1 + 3, Op(OP_POP), Cat(b.code, Cat(skip, arm)));
    HasCat(p, at1 + 4, b.code, Cat(skip, arm));
    HasCat(p, at2, skip, arm);
    HasCat(p, at2 + 3, Op(OP_POP), d.code);
    ConstsSplit(p.consts, k, a.consts + b.consts, d.consts);
    ConstsSplit(p.consts, k, a.consts, b.consts);
  }

  // ----- expressions -----

  /** Running the code of an expression from any stack pushes its value and changes the
      variables exactly as evaluating it does, or fails exactly when evaluating it does. */
  lemma {:induction false} ExprRuns(w: World, p: Program, e: Expr, listed: seq<Local>, live: seq<Local>,
      k: nat, at: nat, st: Store, temps: seq<Value>) returns (n: nat)
    requires Describes(live, st.scopes) && Extends(listed, live)
    requires Sits(p, at, k, GenExpr(e, listed, k))
    ensures Reaches(w, p, At(at, live, st, temps), n, Evaluate(w, e, st),
      at + Size(GenExpr(e, listed, k).code), live, temps)
    decreases e, 1
  {
    hide Describes, Slots, At, Reaches, Sits, Evaluate, GenExpr, Extends;
    match e
    case Lit(l) => n := LitRuns(w, p, l, listed, live, k, at, st, temps);
    case Var(x) => n := VarRuns(w, p, x, listed, live, k, at, st, temps);
    case Assign(x, rhs) => n := AssignRuns(w, p, x, rhs, listed, live, k, at, st, temps);
    case Update(x, aop, rhs) => n := UpdateRuns(w, p, x, aop, rhs, listed, live, k, at, st, temps);
    case Step(x, up) => n := StepRuns(w, p, x, up, listed, live, k, at, st, temps);
    case Unary(op, a) => n := UnaryRuns(w, p, op, a, listed, live, k, at, st, temps);
    case Binary(op, l, r) => n := BinaryRuns(w, p, op, l, r, listed, live, k, at, st, temps);
    case And(l, r) => n := AndRuns(w, p, l, r, listed, live, k, at, st, temps);
    case Or(l, r) => n := OrRuns(w, p, l, r, listed, live, k, at, st, temps);
    case Cond(c, t, f) => n := CondRuns(w, p, c, t, f, listed, live, k, at, st, temps);
  }

  lemma {:induction false} LitRuns(w: World, p: Program, l: Literal, listed: seq<Local>, live: seq<Local>,
      k: nat, at: nat, st: Store, temps: seq<Value>) returns (n: nat)
    requires Describes(live, st.scopes)
    requires Sits(p, at, k, GenExpr(Lit(l), listed, k))
    ensures Reaches(w, p, At(at, live, st, temps), n, Evaluate(w, Lit(l), st),
      at + Size(GenExpr(Lit(l), listed, k).code), live, temps)
  {
    hide Describes, Slots;
    var s := At(at, live, st, temps);
    var o := GenLit(l, k);
    if o.code.op == OP_CONSTANT {
      StepArg(w, p, s, OP_CONSTANT, k);
      assert p.consts[k + 0] == o.consts[0];
    } else {
      StepPlain(w, p, s, o.code.op);
    }
    assert s.stack + [LiteralValue(l)] == Slots(live, st.scopes) + (temps + [LiteralValue(l)]);
    n := 1;
  }

  lemma {:induction false} VarRuns(w: World, p: Program, x: string, listed: seq<Local>, live: seq<Local>,
      k: nat, at: nat, st: Store, temps: seq<Value>) returns (n: nat)
    requires Describes(live, st.scopes) && Extends(listed, live)
    requires Sits(p, at, k, GenExpr(Var(x), listed, k))
    ensures Reaches(w, p, At(at, live, st, temps), n, Evaluate(w, Var(x), st),
      at + Size(GenExpr(Var(x), listed, k).code), live, temps)
  {
    hide Describes, Slots, Read, PlaceOf;
    GetRuns(w, p, listed, live, x, k, at, st, temps);
    n := 1;
  }

  lemma {:induction false} AssignUnfolds(w: World, x: string, rhs: Expr, listed: seq<Local>, k: nat, st: Store)
    ensures Evaluate(w, Assign(x, rhs), st) ==
            var r := Evaluate(w, rhs, st); if r.Raised? then r else Write(x, r.v, r.st)
    ensures GenExpr(Assign(x, rhs), listed, k) ==
            var pl := PlaceOf(listed, x, k); AssignOut(pl, GenExpr(rhs, listed, k + |pl.consts|))
  {
    hide Join, Op, Op16, UpdateCode, AssignOut, UpdateOut, UnaryOut, BinaryOut, AndOut, OrOut, BranchOut, BinCode, UnCode;
    hide PlaceOf, GenLit, Get, Read, Write, Combine, Apply, ApplyUnary, IsFalse, Falsy, Yield, PlainOp, Compounds, LiteralValue, Meant;
  }

  lemma {:induction false} AssignRuns(w: World, p: Program, x: string, rhs: Expr, listed: seq<Local>, live: seq<Local>,
      k: nat, at: nat, st: Store, temps: seq<Value>) returns (n: nat)
    requires Describes(live, st.scopes) && Extends(listed, live)
    requires Sits(p, at, k, GenExpr(Assign(x, rhs), listed, k))
    ensures Reaches(w, p, At(at, live, st, temps), n, Evaluate(w, Assign(x, rhs), st),
      at + Size(GenExpr(Assign(x, rhs), listed, k).code), live, temps)
    decreases Assign(x, rhs), 0
  {
    hide Describes, Slots, StepOp, StepOp16, Machine.Step, IsFalse, Falsy, Lookup, Resolve, Steps, BinCode, Apply;
    hide Evaluate, GenExpr, PlaceOf, Short, Has, ConstsAt, Join, AndCode, OrCode, Branch, At, Size;
    AssignUnfolds(w, x, rhs, listed, k, st);
    var s := At(at, live, st, temps);
    var k1 := k + |PlaceOf(listed, x, k).consts|;
    AssignSits(p, at, k, PlaceOf(listed, x, k), GenExpr(rhs, listed, k1));
    n := ExprRuns(w, p, rhs, listed, live, k1, at, st, temps);
    var y := Evaluate(w, rhs, st);
    if y.Got? {
      SetRuns(w, p, listed, live, x, k, at + Size(GenExpr(rhs, listed, k1).code), y.st, temps, y.v);
      StepsAdd(w, p, s, n, 1);
      n := n + 1;
    }
  }

  lemma {:induction false} UpdateUnfolds(w: World, x: string, aop: AssignOp, rhs: Expr, listed: seq<Local>, k: nat, st: Store)
    ensures Evaluate(w, Update(x, aop, rhs), st) ==
            var l := Read(w, x, st); if l.Raised? then l else
            var r := Evaluate(w, rhs, l.st); if r.Raised? then r else
            Combine(w, PlainOp(aop), x, l.v, r.v, r.st)
    ensures GenExpr(Update(x, aop, rhs), listed, k) ==
            var pl := PlaceOf(listed, x, k);
            UpdateOut(pl, GenExpr(rhs, listed, k + |pl.consts|), BinCode(PlainOp(aop)))
  {
    hide Join, Op, Op16, UpdateCode, AssignOut, UpdateOut, UnaryOut, BinaryOut, AndOut, OrOut, BranchOut, BinCode, UnCode;
    hide PlaceOf, GenLit, Get, Read, Write, Combine, Apply, ApplyUnary, IsFalse, Falsy, Yield, PlainOp, Compounds, LiteralValue, Meant;
  }

  lemma {:induction false} UpdateRuns(w: World, p: Program, x: string, aop: AssignOp, rhs: Expr, listed: seq<Local>, live: seq<Local>,
      k: nat, at: nat, st: Store, temps: seq<Value>) returns (n: nat)
    requires Describes(live, st.scopes) && Extends(listed, live)
    requires Sits(p, at, k, GenExpr(Update(x, aop, rhs), listed, k))
    ensures Reaches(w, p, At(at, live, st, temps), n, Evaluate(w, Update(x, aop, rhs), st),
      at + Size(GenExpr(Update(x, aop, rhs), listed, k).code), live, temps)
    decreases Update(x, aop, rhs), 0
  {
    hide Describes, Slots, StepOp, StepOp16, Machine.Step, IsFalse, Falsy, Lookup, Resolve, Steps, BinCode, Apply;
    hide Evaluate, GenExpr, PlaceOf, Short, Has, ConstsAt, Join, AndCode, OrCode, Branch, At, Size;
    hide PlainOp, Compounds, Combine, Read;
    UpdateUnfolds(w, x, aop, rhs, listed, k, st);
    var s := At(at, live, st, temps);
    var k1 := k + |PlaceOf(listed, x, k).consts|;
    UpdateSits(p, at, k, PlaceOf(listed, x, k), GenExpr(rhs, listed, k1), BinCode(PlainOp(aop)));
    GetRuns(w, p, listed, live, x, k, at, st, temps);
    n := 1;
    var l := Read(w, x, st);
    if l.Got? {
      var n1 := ExprRuns(w, p, rhs, listed, live, k1, at + 3, l.st, temps + [l.v]);
      StepsAdd(w, p, s, n, n1);
      n := n + n1;
      var y := Evaluate(w, rhs, l.st);
      if y.Got? {
        assert temps + [l.v] + [y.v] == temps + [l.v, y.v];
        var n2 := CombineRuns(w, p, PlainOp(aop), x, listed, live, k,
          at + 3 + Size(GenExpr(rhs, listed, k1).code), y.st, temps, l.v, y.v);
        StepsAdd(w, p, s, n, n2);
        n := n + n2;
      }
    }
  }

  lemma {:induction false} StepUnfolds(w: World, x: string, up: bool, listed: seq<Local>, k: nat, st: Store)
    ensures Evaluate(w, Expr.Step(x, up), st) ==
            var l := Read(w, x, st); if l.Raised? then l else
            Combine(w, if up then Add else Sub, x, l.v, Number(1.0), l.st)
    ensures GenExpr(Expr.Step(x, up), listed, k) ==
            UpdateOut(PlaceOf(listed, x, k), Out(Op(OP_ONE), [], true, true), BinCode(if up then Add else Sub))
  {
    hide Join, Op, Op16, UpdateCode, AssignOut, UpdateOut, UnaryOut, BinaryOut, AndOut, OrOut, BranchOut, BinCode, UnCode;
    hide PlaceOf, GenLit, Get, Read, Write, Combine, Apply, ApplyUnary, IsFalse, Falsy, Yield, PlainOp, Compounds, LiteralValue, Meant;
  }

  lemma {:induction false} StepRuns(w: World, p: Program, x: string, up: bool, listed: seq<Local>, live: seq<Local>,
      k: nat, at: nat, st: Store, temps: seq<Value>) returns (n: nat)
    requires Describes(live, st.scopes) && Extends(listed, live)
    requires Sits(p, at, k, GenExpr(Expr.Step(x, up), listed, k))
    ensures Reaches(w, p, At(at, live, st, temps), n, Evaluate(w, Expr.Step(x, up), st),
      at + Size(GenExpr(Expr.Step(x, up), listed, k).code), live, temps)
    decreases Expr.Step(x, up), 0
  {
    hide Describes, Slots, StepOp, StepOp16, Machine.Step, IsFalse, Falsy, Lookup, Resolve, Steps, BinCode, Apply;
    hide Evaluate, GenExpr, PlaceOf, Short, Has, ConstsAt, Join, AndCode, OrCode, Branch, At, Size;
    hide Combine, Read;
    StepUnfolds(w, x, up, listed, k, st);
    var s := At(at, live, st, temps);
    UpdateSits(p, at, k, PlaceOf(listed, x, k), Out(Op(OP_ONE), [], true, true), BinCode(if up then Add else Sub));
    GetRuns(w, p, listed, live, x, k, at, st, temps);
    n := 1;
    var l := Read(w, x, st);
    if l.Got? {
      OneRuns(w, p, live, at + 3, l.st, temps + [l.v]);
      StepsAdd(w, p, s, 1, 1);
      assert temps + [l.v] + [Number(1.0)] == temps + [l.v, Number(1.0)];
      var n2 := CombineRuns(w, p, if up then Add else Sub, x, listed, live, k, at + 4, l.st, temps, l.v, Number(1.0));
      StepsAdd(w, p, s, 2, n2);
      n := 2 + n2;
    }
  }

  lemma {:induction false} OneRuns(w: World, p: Program, live: seq<Local>, at: nat, st: Store, temps: seq<Value>)
    requires Describes(live, st.scopes) && Has(p, at, Op(OP_ONE))
    ensures Steps(w, p, At(at, live, st, temps), 1) == At(at + 1, live, st, temps + [Number(1.0)])
  {
    hide Describes, Slots;
    StepPlain(w, p, At(at, live, st, temps), OP_ONE);
    assert Slots(live, st.scopes) + temps + [Number(1.0)] == Slots(live, st.scopes) + (temps + [Number(1.0)]);
  }

  lemma {:induction false} UnaryUnfolds(w: World, op: UnOp, a: Expr, listed: seq<Local>, k: nat, st: Store)
    ensures Evaluate(w, Unary(op, a), st) ==
            var r := Evaluate(w, a, st); if r.Raised? then r else Yield(ApplyUnary(w, op, r.v), r.st)
    ensures GenExpr(Unary(op, a), listed, k) ==
            UnaryOut(GenExpr(a, listed, k), UnCode(op))
  {
    hide Join, Op, Op16, UpdateCode, AssignOut, UpdateOut, UnaryOut, BinaryOut, AndOut, OrOut, BranchOut, BinCode, UnCode;
    hide PlaceOf, GenLit, Get, Read, Write, Combine, Apply, ApplyUnary, IsFalse, Falsy, Yield, PlainOp, Compounds, LiteralValue, Meant;
  }

  lemma {:induction false} UnaryRuns(w: World, p: Program, op: UnOp, a: Expr, listed: seq<Local>, live: seq<Local>,
      k: nat, at: nat, st: Store, temps: seq<Value>) returns (n: nat)
    requires Describes(live, st.scopes) && Extends(listed, live)
    requires Sits(p, at, k, GenExpr(Unary(op, a), listed, k))
    ensures Reaches(w, p, At(at, live, st, temps), n, Evaluate(w, Unary(op, a), st),
      at + Size(GenExpr(Unary(op, a), listed, k).code), live, temps)
    decreases Unary(op, a), 0
  {
    hide Describes, Slots, StepOp, StepOp16, Machine.Step, IsFalse, Falsy, Lookup, Resolve, Steps, BinCode, Apply;
    hide Evaluate, GenExpr, PlaceOf, Short, Has, ConstsAt, Join, AndCode, OrCode, Branch, At, Size;
    hide ApplyUnary, UnCode;
    UnaryUnfolds(w, op, a, listed, k, st);
    var s := At(at, live, st, temps);
    UnarySits(p, at, k, GenExpr(a, listed, k), UnCode(op));
    n := ExprRuns(w, p, a, listed, live, k, at, st, temps);
    var x := Evaluate(w, a, st);
    if x.Got? {
      var n1 := UnRuns(w, p, op, live, at + Size(GenExpr(a, listed, k).code), x.st, temps, x.v);
      StepsAdd(w, p, s, n, n1);
      n := n + n1;
    }
  }

  lemma {:induction false} BinaryUnfolds(w: World, op: BinOp, l: Expr, r: Expr, listed: seq<Local>, k: nat, st: Store)
    ensures Evaluate(w, Binary(op, l, r), st) ==
            var x := Evaluate(w, l, st); if x.Raised? then x else
            var y := Evaluate(w, r, x.st); if y.Raised? then y else Yield(Apply(w, op, x.v, y.v), y.st)
    ensures GenExpr(Binary(op, l, r), listed, k) ==
            var a := GenExpr(l, listed, k); BinaryOut(a, GenExpr(r, listed, k + |a.consts|), BinCode(op))
  {
    hide Join, Op, Op16, UpdateCode, AssignOut, UpdateOut, UnaryOut, BinaryOut, AndOut, OrOut, BranchOut, BinCode, UnCode;
    hide PlaceOf, GenLit, Get, Read, Write, Combine, Apply, ApplyUnary, IsFalse, Falsy, Yield, PlainOp, Compounds, LiteralValue, Meant;
  }

  lemma {:induction false} BinaryRuns(w: World, p: Program, op: BinOp, l: Expr, r: Expr, listed: seq<Local>, live: seq<Local>,
      k: nat, at: nat, st: Store, temps: seq<Value>) returns (n: nat)
    requires Describes(live, st.scopes) && Extends(listed, live)
    requires Sits(p, at, k, GenExpr(Binary(op, l, r), listed, k))
    ensures Reaches(w, p, At(at, live, st, temps), n, Evaluate(w, Binary(op, l, r), st),
      at + Size(GenExpr(Binary(op, l, r), listed, k).code), live, temps)
    decreases Binary(op, l, r), 0
  {
    hide Describes, Slots, StepOp, StepOp16, Machine.Step, IsFalse, Falsy, Lookup, Resolve, Steps, BinCode, Apply;
    hide Evaluate, GenExpr, PlaceOf, Short, Has, ConstsAt, Join, AndCode, OrCode, Branch, At, Size;
    BinaryUnfolds(w, op, l, r, listed, k, st);
    var s := At(at, live, st, temps);
    var a := GenExpr(l, listed, k);
    var at1 := at + Size(a.code);
    BinarySits(p, at, k, a, GenExpr(r, listed, k + |a.consts|), BinCode(op));
    n := ExprRuns(w, p, l, listed, live, k, at, st, temps);
    var x := Evaluate(w, l, st);
    if x.Got? {
      var n1 := ExprRuns(w, p, r, listed, live, k + |a.consts|, at1, x.st, temps + [x.v]);
      StepsAdd(w, p, s, n, n1);
      n := n + n1;
      var y := Evaluate(w, r, x.st);
      if y.Got? {
        assert temps + [x.v] + [y.v] == temps + [x.v, y.v];
        var n2 := BinRuns(w, p, op, live, at1 + Size(GenExpr(r, listed, k + |a.consts|).code), y.st, temps, x.v, y.v);
        StepsAdd(w, p, s, n, n2);
        n := n + n2;
      }
    }
  }

  lemma {:induction false} AndUnfolds(w: World, l: Expr, r: Expr, listed: seq<Local>, k: nat, st: Store)
    ensures Evaluate(w, And(l, r), st) ==
            var x := Evaluate(w, l, st); if x.Raised? || IsFalse(w, x.v) then x else Evaluate(w, r, x.st)
    ensures GenExpr(And(l, r), listed, k) ==
            var a := GenExpr(l, listed, k); AndOut(a, GenExpr(r, listed, k + |a.consts|))
  {
    hide Join, Op, Op16, UpdateCode, AssignOut, UpdateOut, UnaryOut, BinaryOut, AndOut, OrOut, BranchOut, BinCode, UnCode;
    hide PlaceOf, GenLit, Get, Read, Write, Combine, Apply, ApplyUnary, IsFalse, Falsy, Yield, PlainOp, Compounds, LiteralValue, Meant;
  }

  lemma {:induction false} AndRuns(w: World, p: Program, l: Expr, r: Expr, listed: seq<Local>, live: seq<Local>,
      k: nat, at: nat, st: Store, temps: seq<Value>) returns (n: nat)
    requires Describes(live, st.scopes) && Extends(listed, live)
    requires Sits(p, at, k, GenExpr(And(l, r), listed, k))
    ensures Reaches(w, p, At(at, live, st, temps), n, Evaluate(w, And(l, r), st),
      at + Size(GenExpr(And(l, r), listed, k).code), live, temps)
    decreases And(l, r), 0
  {
    hide Describes, Slots, StepOp, StepOp16, Machine.Step, IsFalse, Falsy, Lookup, Resolve, Steps, BinCode, Apply;
    hide Evaluate, GenExpr, PlaceOf, Short, Has, ConstsAt, Join, AndCode, OrCode, Branch, At, Size;
    AndUnfolds(w, l, r, listed, k, st);
    var s := At(at, live, st, temps);
    var a := GenExpr(l, listed, k);
    var b := GenExpr(r, listed, k + |a.consts|);
    AndSits(p, at, k, a, b);
    var at1 := at + Size(a.code);
    n := ExprRuns(w, p, l, listed, live, k, at, st, temps);
    var x := Evaluate(w, l, st);
    if x.Got? {
      TestAndPop(w, p, live, at1, x.st, temps, x.v, 1 + Size(b.code));
      if IsFalse(w, x.v) {
        StepsAdd(w, p, s, n, 1);
        n := n + 1;
      } else {
        StepsAdd(w, p, s, n, 2);
        n := n + 2;
        var n1 := ExprRuns(w, p, r, listed, live, k + |a.consts|, at1 + 4, x.st, temps);
        StepsAdd(w, p, s, n, n1);
        n := n + n1;
      }
    }
  }

  lemma {:induction false} OrUnfolds(w: World, l: Expr, r: Expr, listed: seq<Local>, k: nat, st: Store)
    ensures Evaluate(w, Or(l, r), st) ==
            var x := Evaluate(w, l, st); if x.Raised? || !IsFalse(w, x.v) then x else Evaluate(w, r, x.st)
    ensures GenExpr(Or(l, r), listed, k) ==
            var a := GenExpr(l, listed, k); OrOut(a, GenExpr(r, listed, k + |a.consts|))
  {
    hide Join, Op, Op16, UpdateCode, AssignOut, UpdateOut, UnaryOut, BinaryOut, AndOut, OrOut, BranchOut, BinCode, UnCode;
    hide PlaceOf, GenLit, Get, Read, Write, Combine, Apply, ApplyUnary, IsFalse, Falsy, Yield, PlainOp, Compounds, LiteralValue, Meant;
  }

  lemma {:induction false} OrRuns(w: World, p: Program, l: Expr, r: Expr, listed: seq<Local>, live: seq<Local>,
      k: nat, at: nat, st: Store, temps: seq<Value>) returns (n: nat)
    requires Describes(live, st.scopes) && Extends(listed, live)
    requires Sits(p, at, k, GenExpr(Or(l, r), listed, k))
    ensures Reaches(w, p, At(at, live, st, temps), n, Evaluate(w, Or(l, r), st),
      at + Size(GenExpr(Or(l, r), listed, k).code), live, temps)
    decreases Or(l, r), 0
  {
    hide Describes, Slots, StepOp, StepOp16, Machine.Step, IsFalse, Falsy, Lookup, Resolve, Steps, BinCode, Apply;
    hide Evaluate, GenExpr, PlaceOf, Short, Has, ConstsAt, Join, AndCode, OrCode, Branch, At, Size;
    OrUnfolds(w, l, r, listed, k, st);
    var s := At(at, live, st, temps);
    var a := GenExpr(l, listed, k);
    var b := GenExpr(r, listed, k + |a.consts|);
    OrSits(p, at, k, a, b);
    var at1 := at + Size(a.code);
    n := ExprRuns(w, p, l, listed, live, k, at, st, temps);
    var x := Evaluate(w, l, st);
    if x.Got? {
      TestRuns(w, p, live, at1, x.st, temps, x.v, 3);
      StepsAdd(w, p, s, n, 1);
      n := n + 1;
      if IsFalse(w, x.v) {
        PopRuns(w, p, live, at1 + 6, x.st, temps, x.v);
        StepsAdd(w, p, s, n, 1);
        n := n + 1;
        var n1 := ExprRuns(w, p, r, listed, live, k + |a.consts|, at1 + 7, x.st, temps);
        StepsAdd(w, p, s, n, n1);
        n := n + n1;
      } else {
        JumpRuns(w, p, live, at1 + 3, x.st, temps + [x.v], 1 + Size(b.code));
        StepsAdd(w, p, s, n, 1);
        n := n + 1;
      }
    }
  }

  lemma {:induction false} CondUnfolds(w: World, c: Expr, t: Expr, f: Expr, listed: seq<Local>, k: nat, st: Store)
    ensures Evaluate(w, Cond(c, t, f), st) ==
            var x := Evaluate(w, c, st); if x.Raised? then x
            else if IsFalse(w, x.v) then Evaluate(w, f, x.st) else Evaluate(w, t, x.st)
    ensures GenExpr(Cond(c, t, f), listed, k) ==
            var a := GenExpr(c, listed, k); var b := GenExpr(t, listed, k + |a.consts|);
            BranchOut(a, b, GenExpr(f, listed, k + |a.consts| + |b.consts|))
  {
    hide Join, Op, Op16, UpdateCode, AssignOut, UpdateOut, UnaryOut, BinaryOut, AndOut, OrOut, BranchOut, BinCode, UnCode;
    hide PlaceOf, GenLit, Get, Read, Write, Combine, Apply, ApplyUnary, IsFalse, Falsy, Yield, PlainOp, Compounds, LiteralValue, Meant;
  }

  lemma {:induction false} CondRuns(w: World, p: Program, c: Expr, t: Expr, f: Expr, listed: seq<Local>, live: seq<Local>,
      k: nat, at: nat, st: Store, temps: seq<Value>) returns (n: nat)
    requires Describes(live, st.scopes) && Extends(listed, live)
    requires Sits(p, at, k, GenExpr(Cond(c, t, f), listed, k))
    ensures Reaches(w, p, At(at, live, st, temps), n, Evaluate(w, Cond(c, t, f), st),
      at + Size(GenExpr(Cond(c, t, f), listed, k).code), live, temps)
    decreases Cond(c, t, f), 0
  {
    hide Describes, Slots, StepOp, StepOp16, Machine.Step, IsFalse, Falsy, Lookup, Resolve, Steps, BinCode, Apply;
    hide Evaluate, GenExpr, PlaceOf, Short, Has, ConstsAt, Join, AndCode, OrCode, Branch, At, Size;
    CondUnfolds(w, c, t, f, listed, k, st);
    var s := At(at, live, st, temps);
    var a := GenExpr(c, listed, k);
    var b := GenExpr(t, listed, k + |a.consts|);
    var d := GenExpr(f, listed, k + |a.consts| + |b.consts|);
    BranchSits(p, at, k, a, b, d);
    var at1 := at + Size(a.code);
    var at2 := at1 + 4 + Size(b.code);
    n := ExprRuns(w, p, c, listed, live, k, at, st, temps);
    var x := Evaluate(w, c, st);
    if x.Got? {
      TestAndPop(w, p, live, at1, x.st, temps, x.v, 4 + Size(b.code));
      if IsFalse(w, x.v) {
        PopRuns(w, p, live, at2 + 3, x.st, temps, x.v);
        StepsAdd(w, p, s, n, 1);
        StepsAdd(w, p, s, n + 1, 1);
        n := n + 2;
        var n1 := ExprRuns(w, p, f, listed, live, k + |a.consts| + |b.consts|, at2 + 4, x.st, temps);
        StepsAdd(w, p, s, n, n1);
        n := n + n1;
      } else {
        StepsAdd(w, p, s, n, 2);
        n := n + 2;
        var n1 := ExprRuns(w, p, t, listed, live, k + |a.consts|, at1 + 4, x.st, temps);
        StepsAdd(w, p, s, n, n1);
        n := n + n1;
        var y := Evaluate(w, t, x.st);
        if y.Got? {
          JumpRuns(w, p, live, at2, y.st, temps + [y.v], 1 + Size(d.code));
          StepsAdd(w, p, s, n, 1);
          n := n + 1;
        }
      }
    }
  }
}
