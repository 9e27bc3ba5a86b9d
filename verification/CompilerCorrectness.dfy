/** A compiled function and its source agree on every call: same result, same globals, same
    echoed values, same failures, and neither stops unless the other does. */
module CompilerCorrectness {
  import opened Values
  import opened Bytecode
  import opened Syntax
  import opened Semantics
  import opened Codegen
  import opened Machine
  import opened CodeShape
  import opened ExprCorrectness
  import opened StmtCorrectness

  /** The program the compiler produces for `f`. */
  function Compiled(f: Function): Program {
    var o := GenFunction(f);
    Program(Encode(o.code), o.consts)
  }

  /** The compiler accepts `f`, and every `break` and `continue` in it leaves the stack as its
      loop expects. */
  predicate Accepted(f: Function) {
    var o := GenFunction(f);
    o.ok && o.tidy
  }

  /** The machine on entry to the call: the callee in slot 0, then the arguments. */
  function Start(callee: Value, args: seq<Value>, globals: map<string, Value>): State {
    Running(0, [callee] + args, globals, [])
  }

  function Finished(r: Result): State
    requires !r.OutOfFuel?
  {
    match r
    case Gives(v, g, e) => Halted(v, g, e)
    case Errs(g, e) => Errored(g, e)
  }

  // ----- entry -----

  lemma {:induction false} BindAllAt(names: seq<string>, vs: seq<Value>, i: nat)
    requires |names| == |vs| && DistinctNames(names) && i < |names|
    ensures names[i] in BindAll(names, vs) && BindAll(names, vs)[names[i]] == vs[i]
  {
    var m := |names| - 1;
    if i < m {
      BindAllAt(names[..m], vs[..m], i);
      assert names[..m][i] == names[i] && names[i] != names[m];
    }
  }

  lemma {:induction false} EntryNames(f: Function, callee: Value, args: seq<Value>, globals: Scope)
    requires |args| == |f.params|
    ensures Names(ParamLocals(f.params), Entry(f, callee, args, globals).scopes)
  {
    var live := ParamLocals(f.params);
    var scopes := Entry(f, callee, args, globals).scopes;
    assert live[0] == Local("", 0);
    forall i | 0 <= i < |live| ensures 0 <= live[i].depth < |scopes| && live[i].name in scopes[live[i].depth] {
      if i > 0 { assert live[i] == Local(f.params[i - 1], 1); }
    }
    forall d, x | 0 <= d < |scopes| && x in scopes[d] ensures Local(x, d) in live {
      if d == 1 {
        var i :| 0 <= i < |f.params| && f.params[i] == x;
        assert live[i + 1] == Local(x, 1);
      }
    }
  }

  lemma {:induction false} EntryOrdered(params: seq<string>)
    requires DistinctNames(params) && |params| < MAX_LOCALS
    ensures Ordered(ParamLocals(params))
  {
    var live := ParamLocals(params);
    forall i, j | 0 <= i < j < |live| ensures live[i].depth <= live[j].depth && live[i] != live[j] {
      assert live[j] == Local(params[j - 1], 1);
      if i > 0 { assert live[i] == Local(params[i - 1], 1); }
    }
  }

  lemma {:induction false} EntrySlots(f: Function, callee: Value, args: seq<Value>, globals: Scope)
    requires |args| == |f.params| && DistinctNames(f.params)
    requires Describes(ParamLocals(f.params), Entry(f, callee, args, globals).scopes)
    ensures Slots(ParamLocals(f.params), Entry(f, callee, args, globals).scopes) == [callee] + args
  {
    hide BindAll, Names, Ordered;
    var live := ParamLocals(f.params);
    var params := BindAll(f.params, args);
    var slots, want := Slots(live, [map["" := callee], params]), [callee] + args;
    assert live[0] == Local("", 0) && slots[0] == want[0];
    forall i | 1 <= i < |live| ensures slots[i] == want[i] {
      assert live[i] == Local(f.params[i - 1], 1);
      BindAllAt(f.params, args, i - 1);
      assert slots[i] == params[f.params[i - 1]];
    }
  }

  lemma {:induction false} EntryDescribes(f: Function, callee: Value, args: seq<Value>, globals: Scope)
    requires |args| == |f.params| && DistinctNames(f.params) && |f.params| < MAX_LOCALS
    ensures var live := ParamLocals(f.params); var st := Entry(f, callee, args, globals);
            && Describes(live, st.scopes) && OneScopeMore([Local("", 0)], live, 1)
            && At(0, live, st, []) == Start(callee, args, globals)
  {
    hide Names, Ordered, Slots, DistinctNames, BindAll;
    var live := ParamLocals(f.params);
    EntryNames(f, callee, args, globals);
    EntryOrdered(f.params);
    EntrySlots(f, callee, args, globals);
    assert live[0] == Local("", 0) && forall i :: 1 <= i < |live| ==> live[i] == Local(f.params[i - 1], 1);
    assert [callee] + args + [] == [callee] + args;
  }

  lemma {:induction false} CompiledSits(f: Function)
    requires GenFunction(f).ok
    ensures var b := GenDecls(f.body, ParamLocals(f.params), 1, 0, 0, NO_LOOP); var p := Compiled(f);
            && Has(p, 0, b.code) && Has(p, Size(b.code), Join(Op(OP_EMPTY), Op(OP_RETURN)))
            && ConstsAt(p.consts, 0, b.consts)
  {
    hide GenDecls, CodeAt, Encode;
    var o := GenFunction(f);
    var p := Compiled(f);
    var b := GenDecls(f.body, ParamLocals(f.params), 1, 0, 0, NO_LOOP);
    EncodedAll(p, o.code);
    HasCat(p, 0, b.code, Join(Op(OP_EMPTY), Op(OP_RETURN)));
  }

  lemma {:induction false} EncodedAll(p: Program, c: Code)
    requires p.code == Encode(c)
    ensures Has(p, 0, c)
  {
    assert p.code[0..0 + Size(c)] == Encode(c);
    EncodedSits(p.code, 0, c);
  }

  // ----- whole calls -----

  /** For every fuel budget: if the source call finishes within it, so does the machine, with
      the same result; if it does not, the machine is still running after that many steps. */
  lemma {:induction false} CallRuns(w: World, f: Function, callee: Value, args: seq<Value>, globals: Scope, fuel: nat)
    returns (n: nat)
    requires Accepted(f) && |args| == |f.params|
    ensures var r := Call(w, fuel, f, callee, args, globals);
            var s := Steps(w, Compiled(f), Start(callee, args, globals), n);
            if r.OutOfFuel? then n >= fuel && s.Running? else s == Finished(r)
  {
    hide GenDecls, ExecDecls, Describes, At, LeftAt, Has, ConstsAt, Leave, OneScopeMore;
    var live := ParamLocals(f.params);
    var st := Entry(f, callee, args, globals);
    var p := Compiled(f);
    var b := GenDecls(f.body, live, 1, 0, 0, NO_LOOP);
    EntryDescribes(f, callee, args, globals);
    CompiledSits(f);
    DeclsShape(f.body, live, 1, 0, 0, NO_LOOP);
    QuietIsInPlace(p, 0, 0, Plain(b));
    n := DeclsRuns(w, p, fuel, f.body, [Local("", 0)], live, 1, 0, 0, NO_LOOP, -1, st);
    var o := ExecDecls(w, fuel, f.body, st);
    if o.Normal? {
      ReturnEmptyRuns(w, p, b.locals, Size(b.code), o.st);
      StepsAdd(w, p, Start(callee, args, globals), n, 2);
      n := n + 2;
    }
  }

  lemma {:induction false} QuietIsInPlace(p: Program, at: nat, k: nat, o: Out)
    requires o.ok && o.tidy && NoBreaks(o.code) && Has(p, at, o.code) && ConstsAt(p.consts, k, o.consts)
    ensures InPlace(p, at, k, o, -1)
  {
    hide Has, ConstsAt, PatchBreaks, PatchFits;
    PatchLeavesAlone(o.code, at, -1);
  }

  /** The machine running `p` ends in `s` exactly when the source call, given enough fuel, does. */
  ghost predicate EndsAlike(w: World, f: Function, p: Program, callee: Value, args: seq<Value>, globals: Scope, s: State)
    requires |args| == |f.params|
  {
    (exists n: nat :: Steps(w, p, Start(callee, args, globals), n) == s)
    <==> (exists fuel: nat :: var r := Call(w, fuel, f, callee, args, globals); !r.OutOfFuel? && Finished(r) == s)
  }

  /** A compiled function ends as its source does: same result, same globals, same echoed values,
      same failures; and it ends only if the source does. */
  lemma {:induction false} CompilerCorrect(w: World, f: Function, callee: Value, args: seq<Value>, globals: Scope, s: State)
    requires Accepted(f) && |args| == |f.params| && !s.Running?
    ensures EndsAlike(w, f, Compiled(f), callee, args, globals, s)
  {
    hide Call, GenFunction, Encode, Steps;
    var p, s0 := Compiled(f), Start(callee, args, globals);
    if n: nat :| Steps(w, p, s0, n) == s {
      var m := CallRuns(w, f, callee, args, globals, n);
      EndsOnce(w, p, s0, n, m);
    }
    if fuel: nat :| var r := Call(w, fuel, f, callee, args, globals); !r.OutOfFuel? && Finished(r) == s {
      var m := CallRuns(w, f, callee, args, globals, fuel);
    }
  }

  /** The machine runs for ever exactly when the source call never finishes. */
  lemma {:induction false} DivergenceAgrees(w: World, f: Function, callee: Value, args: seq<Value>, globals: Scope)
    requires Accepted(f) && |args| == |f.params|
    ensures (forall n: nat :: Steps(w, Compiled(f), Start(callee, args, globals), n).Running?)
       <==> (forall fuel: nat :: Call(w, fuel, f, callee, args, globals).OutOfFuel?)
  {
    hide Call, GenFunction, Encode, Steps;
    var p, s0 := Compiled(f), Start(callee, args, globals);
    if fuel: nat :| !Call(w, fuel, f, callee, args, globals).OutOfFuel? {
      var m := CallRuns(w, f, callee, args, globals, fuel);
    }
    if n: nat :| !Steps(w, p, s0, n).Running? {
      var m := CallRuns(w, f, callee, args, globals, n);
      EndsOnce(w, p, s0, n, m);
    }
  }

  /** Once ended, always ended, in the same state. */
  lemma {:induction false} EndsOnce(w: World, p: Program, s: State, m: nat, n: nat)
    requires !Steps(w, p, s, m).Running?
    ensures m <= n ==> Steps(w, p, s, n) == Steps(w, p, s, m)
    ensures !Steps(w, p, s, n).Running? ==> Steps(w, p, s, n) == Steps(w, p, s, m)
  {
    hide Machine.Step;
    if m <= n {
      StepsAdd(w, p, s, m, n - m);
      EndedStays(w, p, Steps(w, p, s, m), n - m);
    } else {
      StepsAdd(w, p, s, n, m - n);
      if !Steps(w, p, s, n).Running? { EndedStays(w, p, Steps(w, p, s, n), m - n); }
    }
  }
}
