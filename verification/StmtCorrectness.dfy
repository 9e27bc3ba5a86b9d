/** Compiled statements do what the source statement means: loops, `break`, `continue`,
    `using`, scopes and returns, whether or not the statement terminates. */
module StmtCorrectness {
  import opened Basics
  import opened Values
  import opened Bytecode
  import opened Syntax
  import opened Semantics
  import opened Codegen
  import opened Machine
  import opened CodeShape
  import opened ExprCorrectness

  // ----- outcomes and machine states -----

  /** The machine after a jump out of a loop body: only the first `m` locals are left. */
  ghost function LeftAt(ip: nat, live: seq<Local>, st: Store, m: nat): State
    requires Describes(live, st.scopes) && m <= |live|
  {
    Running(ip, Slots(live, st.scopes)[..m], st.globals, st.echoed)
  }

  /** After `n` steps from `s` the machine has reached what outcome `o` says; a statement
      that is still running when the fuel is spent keeps the machine running that long. */
  ghost predicate Ends(w: World, p: Program, s: State, n: nat, o: Outcome, fuel: nat, ip: nat,
                       live: seq<Local>, depth: nat, loop: Loop, brk: int)
  {
    match o
    case Normal(st) =>
      Describes(live, st.scopes) && |st.scopes| == depth + 1 && Steps(w, p, s, n) == At(ip, live, st, [])
    case Continued(st) =>
      && Describes(live, st.scopes) && |st.scopes| == depth + 1
      && loop.start >= 0 && loop.locals <= |live| && n > 0
      && Steps(w, p, s, n) == LeftAt(loop.start, live, st, loop.locals)
    case Broke(st) =>
      && Describes(live, st.scopes) && |st.scopes| == depth + 1
      && brk >= 0 && loop.locals <= |live|
      && Steps(w, p, s, n) == LeftAt(brk, live, st, loop.locals)
    case Returned(v, st) => Steps(w, p, s, n) == Halted(v, st.globals, st.echoed)
    case Failed(st) => Steps(w, p, s, n) == Errored(st.globals, st.echoed)
    case Timeout => n >= fuel && Steps(w, p, s, n).Running?
  }

  /** Error-free, tidy output `o` is in place, its breaks patched to jump to `brk`. */
  ghost predicate InPlace(p: Program, at: nat, k: nat, o: Out, brk: int) {
    && o.ok && o.tidy && PatchFits(o.code, at, brk)
    && Has(p, at, PatchBreaks(o.code, at, brk)) && ConstsAt(p.consts, k, o.consts)
  }

  /** What a statement may assume about the loop around it. */
  ghost predicate LoopOk(loop: Loop, brk: int, live: seq<Local>) {
    && loop.locals <= |live| && loop.start >= -1 && (loop.start >= 0 ==> brk >= 0)
  }

  /** A first part that takes `m` steps from `s` to `s1` leaves the rest of the run. */
  lemma {:induction false} EndsAfter(w: World, p: Program, s: State, m: nat, n: nat, o: Outcome, fuel: nat, ip: nat,
                                     live: seq<Local>, depth: nat, loop: Loop, brk: int)
    requires Ends(w, p, Steps(w, p, s, m), n, o, fuel, ip, live, depth, loop, brk)
    ensures Ends(w, p, s, m + n, o, fuel, ip, live, depth, loop, brk)
  {
    hide Describes, Slots, Steps, At;
    StepsAdd(w, p, s, m, n);
  }

  // ----- opening and closing scopes -----

  lemma {:induction false} BindKeeps(live: seq<Local>, scopes: seq<Scope>, x: string, v: Value)
    requires Names(live, scopes) && |scopes| > 0
    ensures Names(live + [Local(x, |scopes| - 1)], Bind(scopes, x, v))
  {
    var d := |scopes| - 1;
    var live' := live + [Local(x, d)];
    var scopes' := Bind(scopes, x, v);
    forall i | 0 <= i < |live'| ensures 0 <= live'[i].depth < |scopes'| && live'[i].name in scopes'[live'[i].depth] {
      if i < |live| { assert live'[i] == live[i]; }
    }
    forall e, y | 0 <= e < |scopes'| && y in scopes'[e] ensures Local(y, e) in live' {
      InMore(live, Local(x, d), Local(y, e));
      if e != d || y != x { assert y in scopes[e]; }
    }
  }

  lemma {:induction false} InMore(live: seq<Local>, l: Local, m: Local)
    ensures m in live || m == l ==> m in live + [l]
  {
    assert (live + [l])[|live|] == l;
    if m in live {
      var i :| 0 <= i < |live| && live[i] == m;
      assert (live + [l])[i] == m;
    }
  }

  lemma {:induction false} BindOrdered(live: seq<Local>, x: string, d: int)
    requires Ordered(live) && |live| < MAX_LOCALS && Local(x, d) !in live
    requires forall i :: 0 <= i < |live| ==> live[i].depth <= d
    ensures Ordered(live + [Local(x, d)])
  {
    var live' := live + [Local(x, d)];
    forall i, j | 0 <= i < j < |live'| ensures live'[i].depth <= live'[j].depth && live'[i] != live'[j] {
      assert live'[i] == live[i];
    }
  }

  /** Declaring a name pushes a slot. */
  lemma {:induction false} BindDescribes(live: seq<Local>, scopes: seq<Scope>, x: string, v: Value)
    requires Describes(live, scopes) && |scopes| > 0 && |live| < MAX_LOCALS
    requires !Clashes(live, |scopes| - 1, x)
    ensures var live' := live + [Local(x, |scopes| - 1)];
            && Describes(live', Bind(scopes, x, v))
            && Slots(live', Bind(scopes, x, v)) == Slots(live, scopes) + [v]
  {
    hide Clashes, Slots, Bind;
    NoClash(live, scopes, x);
    BindKeeps(live, scopes, x, v);
    BindOrdered(live, x, |scopes| - 1);
    BindSlots(live, scopes, x, v);
  }

  lemma {:induction false} BindSlots(live: seq<Local>, scopes: seq<Scope>, x: string, v: Value)
    requires |scopes| > 0 && Local(x, |scopes| - 1) !in live
    requires Describes(live, scopes) && Describes(live + [Local(x, |scopes| - 1)], Bind(scopes, x, v))
    ensures Slots(live + [Local(x, |scopes| - 1)], Bind(scopes, x, v)) == Slots(live, scopes) + [v]
  {
    hide Names, Ordered, Slots;
    var d := |scopes| - 1;
    var live' := live + [Local(x, d)];
    var a, b := Slots(live', Bind(scopes, x, v)), Slots(live, scopes) + [v];
    forall j | 0 <= j < |live'| ensures a[j] == b[j] {
      if j < |live| {
        SlotKept(live, scopes, x, v, j);
        assert live'[j] == live[j];
      }
    }
  }

  lemma {:induction false} SlotKept(live: seq<Local>, scopes: seq<Scope>, x: string, v: Value, j: nat)
    requires |scopes| > 0 && Local(x, |scopes| - 1) !in live && Names(live, scopes) && j < |live|
    ensures var l := live[j]; && 0 <= l.depth < |scopes| && l.name in scopes[l.depth]
                              && l.name in Bind(scopes, x, v)[l.depth] && Bind(scopes, x, v)[l.depth][l.name] == scopes[l.depth][l.name]
  {
    assert live[j] != Local(x, |scopes| - 1);
  }

  lemma {:induction false} NoClash(live: seq<Local>, scopes: seq<Scope>, x: string)
    requires Describes(live, scopes) && !Clashes(live, |scopes| - 1, x)
    ensures Local(x, |scopes| - 1) !in live
  {
    NoClashFrom(live, |scopes| - 1, x);
  }

  lemma {:induction false} NoClashFrom(live: seq<Local>, d: int, x: string)
    requires forall i :: 0 <= i < |live| ==> 0 <= live[i].depth <= d
    requires forall i, j :: 0 <= i < j < |live| ==> live[i].depth <= live[j].depth
    requires !Clashes(live, d, x)
    ensures Local(x, d) !in live
  {
    if live != [] {
      var top := live[|live| - 1];
      if top.depth >= d {
        NoClashFrom(live[..|live| - 1], d, x);
      }
    }
  }

  lemma {:induction false} EnterDescribes(live: seq<Local>, scopes: seq<Scope>)
    requires Describes(live, scopes)
    ensures Describes(live, scopes + [map[]]) && Slots(live, scopes + [map[]]) == Slots(live, scopes)
  {
    var scopes' := scopes + [map[]];
    assert Describes(live, scopes') by {
      forall e, y | 0 <= e < |scopes'| && y in scopes'[e] ensures Local(y, e) in live {
        assert e < |scopes|;
      }
    }
    assert Slots(live, scopes') == Slots(live, scopes);
  }

  /** `inner` is `outer` followed by the locals of one more scope, at `depth`. */
  ghost predicate OneScopeMore(outer: seq<Local>, inner: seq<Local>, depth: nat) {
    && outer <= inner
    && (forall i :: 0 <= i < |outer| ==> outer[i].depth < depth)
    && (forall i :: |outer| <= i < |inner| ==> inner[i].depth == depth)
  }

  /** Closing a scope forgets its slots and nothing else. */
  lemma {:induction false} LeaveDescribes(outer: seq<Local>, inner: seq<Local>, scopes: seq<Scope>)
    requires |scopes| > 0 && Describes(inner, scopes) && OneScopeMore(outer, inner, |scopes| - 1)
    ensures Describes(outer, scopes[..|scopes| - 1])
    ensures Slots(outer, scopes[..|scopes| - 1]) == Slots(inner, scopes)[..|outer|]
  {
    var scopes' := scopes[..|scopes| - 1];
    forall e, y | 0 <= e < |scopes'| && y in scopes'[e] ensures Local(y, e) in outer {
      assert y in scopes[e];
      var i :| 0 <= i < |inner| && inner[i] == Local(y, e);
      assert i < |outer| && outer[i] == inner[i];
    }
    assert Describes(outer, scopes');
    assert Slots(outer, scopes') == Slots(inner, scopes)[..|outer|];
  }

  lemma {:induction false} DeeperCounts(outer: seq<Local>, inner: seq<Local>, depth: nat)
    requires OneScopeMore(outer, inner, depth + 1)
    ensures Deeper(inner, depth) == |inner| - |outer|
    decreases |inner|
  {
    if |inner| > |outer| {
      assert inner[|inner| - 1].depth == depth + 1;
      DeeperCounts(outer, inner[..|inner| - 1], depth);
    } else if |inner| > 0 {
      assert inner[|inner| - 1] == outer[|inner| - 1];
    }
  }

  lemma {:induction false} DeclsLocals(ds: Decls, live: seq<Local>, depth: nat, at: nat, k: nat, loop: Loop,
                                       outer: seq<Local>)
    requires OneScopeMore(outer, live, depth)
    ensures OneScopeMore(outer, GenDecls(ds, live, depth, at, k, loop).locals, depth)
    decreases ds
  {
    hide GenDecls, GenStmt, GenExpr, Size, Clashes, Join, Op, InitOut;
    match ds
    case Done => GenDone(live, depth, at, k, loop);
    case Declare(x, init, rest) =>
      GenDeclared(x, init, rest, live, depth, at, k, loop);
      var a := InitOut(x, init, live, k);
      DeclsLocals(rest, live + [Local(x, depth)], depth, at + Size(a.code), k + |a.consts|, loop, outer);
    case Then(s, rest) =>
      GenThen(s, rest, live, depth, at, k, loop);
      var a := GenStmt(s, live, depth, at, k, loop);
      DeclsLocals(rest, live, depth, at + Size(a.code), k + |a.consts|, loop, outer);
  }

  /** A run of pops drops that many values. */
  lemma {:induction false} PopsRun(w: World, p: Program, s: State, n: nat)
    requires s.Running? && n <= |s.stack| && Has(p, s.ip, Pops(n))
    ensures Steps(w, p, s, n) == s.(ip := s.ip + n, stack := Drop(s.stack, n))
    decreases n
  {
    hide Has, Machine.Step, Size;
    if n > 0 {
      HasCat(p, s.ip, Op(OP_POP), Pops(n - 1));
      OnePop(w, p, s);
      var s1 := s.(ip := s.ip + 1, stack := Drop(s.stack, 1));
      PopsRun(w, p, s1, n - 1);
      assert Drop(s1.stack, n - 1) == Drop(s.stack, n);
    } else {
      assert Drop(s.stack, 0) == s.stack;
    }
  }

  lemma {:induction false} OnePop(w: World, p: Program, s: State)
    requires s.Running? && |s.stack| > 0 && Has(p, s.ip, Op(OP_POP))
    ensures Machine.Step(w, p, s) == s.(ip := s.ip + 1, stack := Drop(s.stack, 1))
  {
    StepPlain(w, p, s, OP_POP);
  }

  /** A backward jump. */
  lemma {:induction false} BackRuns(w: World, p: Program, s: State, start: nat)
    requires s.Running? && Has(p, s.ip, Back(s.ip, start)) && BackFits(s.ip, start)
    ensures Steps(w, p, s, 1) == s.(ip := start)
  {
    StepArg(w, p, s, OP_LOOP, s.ip + 3 - start);
  }

  // ----- layout of statements -----

  /** Code without breaks sits as it was emitted. */
  lemma {:induction false} QuietInPlace(p: Program, at: nat, k: nat, o: Out, brk: int)
    requires InPlace(p, at, k, o, brk) && NoBreaks(o.code)
    ensures Sits(p, at, k, o)
  {
    hide Has, ConstsAt, PatchBreaks, PatchFits;
    PatchLeavesAlone(o.code, at, brk);
  }

  lemma {:induction false} SeqInPlace(p: Program, at: nat, k: nat, a: Out, b: Out, brk: int)
    requires InPlace(p, at, k, Out(Join(a.code, b.code), a.consts + b.consts, a.ok && b.ok, a.tidy && b.tidy), brk)
    ensures InPlace(p, at, k, a, brk) && InPlace(p, at + Size(a.code), k + |a.consts|, b, brk)
  {
    hide Has, ConstsAt, PatchBreaks, PatchFits, Join;
    PatchJoin(a.code, b.code, at, brk);
    HasCat(p, at, PatchBreaks(a.code, at, brk), PatchBreaks(b.code, at + Size(a.code), brk));
    ConstsSplit(p.consts, k, a.consts, b.consts);
  }

  lemma {:induction false} PatchBranch(a: Code, t: Code, f: Code, at: nat, brk: int)
    requires NoBreaks(a)
    ensures var atT := at + Size(a) + 4; var atF := atT + Size(t) + 4;
            && PatchBreaks(Branch(a, t, f), at, brk) == Branch(a, PatchBreaks(t, atT, brk), PatchBreaks(f, atF, brk))
            && PatchFits(Branch(a, t, f), at, brk) == (PatchFits(t, atT, brk) && PatchFits(f, atF, brk))
  {
    hide PatchBreaks, PatchFits, Join, Op, Op16, Size;
    var atT := at + Size(a) + 4;
    var atF := atT + Size(t) + 4;
    var test, skip := Op16(OP_JUMP_IF_FALSE, 4 + Size(t)), Op16(OP_JUMP, 1 + Size(f));
    var arm := Join(Op(OP_POP), f);
    var tail := Join(t, Join(skip, arm));
    PatchLeavesAlone(a, at, brk);
    PatchLeavesAlone(test, at + Size(a), brk);
    PatchLeavesAlone(Op(OP_POP), at + Size(a) + 3, brk);
    PatchLeavesAlone(skip, atT + Size(t), brk);
    PatchLeavesAlone(Op(OP_POP), atF - 1, brk);
    PatchJoin(a, Join(test, Join(Op(OP_POP), tail)), at, brk);
    PatchJoin(test, Join(Op(OP_POP), tail), at + Size(a), brk);
    PatchJoin(Op(OP_POP), tail, at + Size(a) + 3, brk);
    PatchJoin(t, Join(skip, arm), atT, brk);
    PatchJoin(skip, arm, atT + Size(t), brk);
    PatchJoin(Op(OP_POP), f, atF - 1, brk);
  }

  // ----- loops and choices in place -----

  lemma {:induction false} IfInPlace(p: Program, at: nat, k: nat, a: Out, b: Out, d: Out, brk: int)
    requires InPlace(p, at, k, BranchOut(a, b, d), brk) && NoBreaks(a.code)
    ensures var at1 := at + Size(a.code); var at2 := at1 + 4 + Size(b.code);
            && Sits(p, at, k, a) && Has(p, at1, Op16(OP_JUMP_IF_FALSE, 4 + Size(b.code))) && Has(p, at1 + 3, Op(OP_POP))
            && InPlace(p, at1 + 4, k + |a.consts|, b, brk)
            && Has(p, at2, Op16(OP_JUMP, 1 + Size(d.code))) && Has(p, at2 + 3, Op(OP_POP))
            && InPlace(p, at2 + 4, k + |a.consts| + |b.consts|, d, brk) && BranchFits(b.code, d.code)
  {
    hide Has, ConstsAt, PatchBreaks, PatchFits, Branch, Size, Op, Op16;
    var at1 := at + Size(a.code);
    var at2 := at1 + 4 + Size(b.code);
    var b' := b.(code := PatchBreaks(b.code, at1 + 4, brk));
    var d' := d.(code := PatchBreaks(d.code, at2 + 4, brk));
    PatchBranch(a.code, b.code, d.code, at, brk);
    BranchSits(p, at, k, a, b', d');
  }

  lemma {:induction false} WhileSits(p: Program, at: nat, k: nat, a: Out, b: Out)
    requires Sits(p, at, k, WhileOut(a, b, at)) && b.tidy
    ensures var at1 := at + Size(a.code); var atBack := at1 + 4 + Size(b.code);
            && Sits(p, at, k, a) && Has(p, at1, Op16(OP_JUMP_IF_FALSE, 4 + Size(b.code))) && Has(p, at1 + 3, Op(OP_POP))
            && 4 + Size(b.code) <= MAX_OPERAND && InPlace(p, at1 + 4, k + |a.consts|, b, atBack + 4)
            && Has(p, atBack, Back(atBack, at)) && BackFits(atBack, at) && Has(p, atBack + 3, Op(OP_POP))
            && Size(WhileOut(a, b, at).code) == Size(a.code) + Size(b.code) + 8
  {
    hide Has, ConstsAt, PatchBreaks, PatchFits, Op, Op16, Short;
    var at1 := at + Size(a.code);
    var atBack := at1 + 4 + Size(b.code);
    var test := Op16(OP_JUMP_IF_FALSE, 4 + Size(b.code));
    var head := Join(a.code, Join(test, Op(OP_POP)));
    var tail := Join(Back(atBack, at), Op(OP_POP));
    var body := PatchBreaks(b.code, at1 + 4, atBack + 4);
    HasCat(p, at, head, Join(body, tail));
    HasCat(p, at, a.code, Join(test, Op(OP_POP)));
    HasCat(p, at1, test, Op(OP_POP));
    HasCat(p, at1 + 4, body, tail);
    HasCat(p, atBack, Back(atBack, at), Op(OP_POP));
    ConstsSplit(p.consts, k, a.consts, b.consts);
  }

  lemma {:induction false} DoSits(p: Program, at: nat, k: nat, b: Out, a: Out)
    requires Sits(p, at, k, DoOut(b, a, at)) && b.tidy
    ensures var at1 := at + Size(b.code); var at2 := at1 + Size(a.code); var atBack := at2 + 4;
            && InPlace(p, at, k, b, atBack + 4) && Sits(p, at1, k + |b.consts|, a)
            && Has(p, at2, Op16(OP_JUMP_IF_FALSE, 4)) && Has(p, at2 + 3, Op(OP_POP))
            && Has(p, atBack, Back(atBack, at)) && BackFits(atBack, at) && Has(p, atBack + 3, Op(OP_POP))
            && Size(DoOut(b, a, at).code) == Size(a.code) + Size(b.code) + 8
  {
    hide Has, ConstsAt, PatchBreaks, PatchFits, Op, Op16, Short;
    var at1 := at + Size(b.code);
    var at2 := at1 + Size(a.code);
    var atBack := at2 + 4;
    var test := Op16(OP_JUMP_IF_FALSE, 4);
    var head := Join(a.code, Join(test, Op(OP_POP)));
    var tail := Join(Back(atBack, at), Op(OP_POP));
    HasCat(p, at, PatchBreaks(b.code, at, atBack + 4), Join(head, tail));
    HasCat(p, at1, head, tail);
    HasCat(p, at1, a.code, Join(test, Op(OP_POP)));
    HasCat(p, at2, test, Op(OP_POP));
    HasCat(p, atBack, Back(atBack, at), Op(OP_POP));
    ConstsSplit(p.consts, k, b.consts, a.consts);
  }

  /** Where the pieces of an `iter` loop are. */
  ghost predicate IterPieces(p: Program, k: nat, sh: IterShape, c: Out, i: Out, b: Out) {
    var atTest := sh.at + sh.cond;
    var atBack := sh.AtBody() + Size(b.code);
    var back := sh.AtIncr() + sh.incr + 1;
    var end := atBack + 3 + if sh.hasCond then 1 else 0;
    && (sh.hasCond ==>
          && Sits(p, sh.at, k, c) && Has(p, atTest, Op16(OP_JUMP_IF_FALSE, atBack - atTest))
          && Has(p, atTest + 3, Op(OP_POP)) && atBack - atTest <= MAX_OPERAND && Has(p, atBack + 3, Op(OP_POP)))
    && (sh.hasIncr ==>
          && Has(p, sh.AtStep(), Op16(OP_JUMP, sh.incr + 4)) && sh.incr + 4 <= MAX_OPERAND
          && Sits(p, sh.AtIncr(), k + |c.consts|, i) && Has(p, back - 1, Op(OP_POP))
          && Has(p, back, Back(back, sh.at)) && BackFits(back, sh.at))
    && InPlace(p, sh.AtBody(), k + |c.consts| + |i.consts|, b, end)
    && Has(p, atBack, Back(atBack, sh.Start())) && BackFits(atBack, sh.Start())
    && Size(IterOut(sh, c, i, b).code) == end - sh.at
  }

  lemma {:induction false} IterSits(p: Program, k: nat, sh: IterShape, c: Out, i: Out, b: Out)
    requires Sits(p, sh.at, k, IterOut(sh, c, i, b)) && b.tidy
    requires sh.cond == Size(c.code) && sh.incr == Size(i.code)
    ensures IterPieces(p, k, sh, c, i, b)
  {
    hide Has, ConstsAt, PatchBreaks, PatchFits, Op, Op16, Back, IterHead, IterStep, IterTail, Size;
    var atBack := sh.AtBody() + Size(b.code);
    IterSizes(sh, c.code, i.code, atBack);
    IterPartsSit(p, sh, c.code, i.code, b.code);
    HeadSits(p, sh, c.code, atBack);
    StepSits(p, sh, i.code);
    TailSits(p, sh, atBack);
    ConstsSplit(p.consts, k, c.consts + i.consts, b.consts);
    ConstsSplit(p.consts, k, c.consts, i.consts);
  }

  lemma {:induction false} IterSizes(sh: IterShape, c: Code, i: Code, atBack: nat)
    requires sh.cond == Size(c) && sh.incr == Size(i)
    ensures sh.at + Size(IterHead(sh, c, atBack)) == sh.AtStep()
    ensures sh.AtStep() + Size(IterStep(sh, i)) == sh.AtBody()
    ensures Size(IterTail(sh, atBack)) == 3 + if sh.hasCond then 1 else 0
  {
    hide Op, Op16, Back;
    BackQuiet(atBack, sh.Start());
    BackQuiet(sh.AtIncr() + sh.incr + 1, sh.at);
  }

  lemma {:induction false} IterPartsSit(p: Program, sh: IterShape, c: Code, i: Code, b: Code)
    requires sh.cond == Size(c) && sh.incr == Size(i)
    requires var atBack := sh.AtBody() + Size(b); var end := atBack + 3 + if sh.hasCond then 1 else 0;
             Has(p, sh.at, Join(IterHead(sh, c, atBack), Join(IterStep(sh, i), Join(PatchBreaks(b, sh.AtBody(), end), IterTail(sh, atBack)))))
    ensures var atBack := sh.AtBody() + Size(b); var end := atBack + 3 + if sh.hasCond then 1 else 0;
            && Has(p, sh.at, IterHead(sh, c, atBack)) && Has(p, sh.AtStep(), IterStep(sh, i))
            && Has(p, sh.AtBody(), PatchBreaks(b, sh.AtBody(), end)) && Has(p, atBack, IterTail(sh, atBack))
  {
    hide Has, PatchBreaks, IterHead, IterStep, IterTail, Size;
    var atBack := sh.AtBody() + Size(b);
    var end := atBack + 3 + if sh.hasCond then 1 else 0;
    var head, step, tail := IterHead(sh, c, atBack), IterStep(sh, i), IterTail(sh, atBack);
    var body := PatchBreaks(b, sh.AtBody(), end);
    IterSizes(sh, c, i, atBack);
    HasCat(p, sh.at, head, Join(step, Join(body, tail)));
    HasCat(p, sh.AtStep(), step, Join(body, tail));
    HasCat(p, sh.AtBody(), body, tail);
  }

  lemma {:induction false} HeadSits(p: Program, sh: IterShape, c: Code, atBack: nat)
    requires sh.cond == Size(c) && Has(p, sh.at, IterHead(sh, c, atBack))
    ensures var atTest := sh.at + sh.cond;
            sh.hasCond ==> && Has(p, sh.at, c) && Has(p, atTest, Op16(OP_JUMP_IF_FALSE, atBack - atTest)) && Has(p, atTest + 3, Op(OP_POP))
  {
    hide Has, Op, Op16, Size;
    if sh.hasCond {
      var test := Op16(OP_JUMP_IF_FALSE, atBack - sh.at - sh.cond);
      HasCat(p, sh.at, c, Join(test, Op(OP_POP)));
      HasCat(p, sh.at + sh.cond, test, Op(OP_POP));
    }
  }

  lemma {:induction false} StepSits(p: Program, sh: IterShape, i: Code)
    requires sh.incr == Size(i) && Has(p, sh.AtStep(), IterStep(sh, i))
    ensures var back := sh.AtIncr() + sh.incr + 1;
            sh.hasIncr ==> && Has(p, sh.AtStep(), Op16(OP_JUMP, sh.incr + 4)) && Has(p, sh.AtIncr(), i)
                           && Has(p, back - 1, Op(OP_POP)) && Has(p, back, Back(back, sh.at))
  {
    hide Has, Op, Op16, Back, Size;
    if sh.hasIncr {
      var back := sh.AtIncr() + sh.incr + 1;
      HasCat(p, sh.AtStep(), Op16(OP_JUMP, sh.incr + 4), Join(i, Join(Op(OP_POP), Back(back, sh.at))));
      HasCat(p, sh.AtIncr(), i, Join(Op(OP_POP), Back(back, sh.at)));
      HasCat(p, back - 1, Op(OP_POP), Back(back, sh.at));
    }
  }

  lemma {:induction false} TailSits(p: Program, sh: IterShape, atBack: nat)
    requires Has(p, atBack, IterTail(sh, atBack))
    ensures Has(p, atBack, Back(atBack, sh.Start())) && (sh.hasCond ==> Has(p, atBack + 3, Op(OP_POP)))
  {
    hide Has, Op, Back;
    BackQuiet(atBack, sh.Start());
    HasCat(p, atBack, Back(atBack, sh.Start()), if sh.hasCond then Op(OP_POP) else Nop);
  }

  // ----- running statements -----

  ghost predicate Ready(p: Program, at: nat, k: nat, live: seq<Local>, depth: nat, loop: Loop, brk: int, st: Store, o: Out) {
    Describes(live, st.scopes) && |st.scopes| == depth + 1 && LoopOk(loop, brk, live) && InPlace(p, at, k, o, brk)
  }

  /** Running the code of a statement has exactly the outcome of executing it. */
  lemma {:induction false} StmtRuns(w: World, p: Program, fuel: nat, s: Stmt, live: seq<Local>, depth: nat,
      at: nat, k: nat, loop: Loop, brk: int, st: Store) returns (n: nat)
    requires Ready(p, at, k, live, depth, loop, brk, st, GenStmt(s, live, depth, at, k, loop))
    ensures Ends(w, p, At(at, live, st, []), n, Exec(w, fuel, s, st), fuel,
      at + Size(GenStmt(s, live, depth, at, k, loop).code), live, depth, loop, brk)
    decreases fuel, s, 1
  {
    hide Describes, Slots, At, Ends, Exec, GenStmt, InPlace, LoopOk, Size;
    match s
    case Skip => n := SkipRuns(w, p, fuel, live, depth, at, k, loop, brk, st);
    case Seq(s1, s2) => n := SeqRuns(w, p, fuel, s1, s2, live, depth, at, k, loop, brk, st);
    case Eval(e) => n := EvalRuns(w, p, fuel, e, live, depth, at, k, loop, brk, st);
    case Echo(e) => n := EchoRuns(w, p, fuel, e, live, depth, at, k, loop, brk, st);
    case Block(ds) => n := BlockRuns(w, p, fuel, ds, live, depth, at, k, loop, brk, st);
    case If(e, t, f) => n := IfRuns(w, p, fuel, e, t, f, live, depth, at, k, loop, brk, st);
    case While(e, body) => n := WhileRuns(w, p, fuel, e, body, live, depth, at, k, loop, brk, st);
    case DoWhile(body, e) => n := DoRuns(w, p, fuel, body, e, live, depth, at, k, loop, brk, st);
    case IterLoop(c, i, body) => n := IterRuns(w, p, fuel, c, i, body, live, depth, at, k, loop, brk, st);
    case Using(e, cases) => n := UsingRuns(w, p, fuel, e, cases, live, depth, at, k, loop, brk, st);
    case Continue => n := ContinueRuns(w, p, fuel, live, depth, at, k, loop, brk, st);
    case Break => n := BreakRuns(w, p, fuel, live, depth, at, k, loop, brk, st);
    case Return(r) => n := ReturnRuns(w, p, fuel, r, live, depth, at, k, loop, brk, st);
  }

  lemma {:induction false} SkipRuns(w: World, p: Program, fuel: nat, live: seq<Local>, depth: nat,
      at: nat, k: nat, loop: Loop, brk: int, st: Store) returns (n: nat)
    requires Ready(p, at, k, live, depth, loop, brk, st, GenStmt(Skip, live, depth, at, k, loop))
    ensures Ends(w, p, At(at, live, st, []), n, Exec(w, fuel, Skip, st), fuel,
      at + Size(GenStmt(Skip, live, depth, at, k, loop).code), live, depth, loop, brk)
  {
    hide Describes, At;
    n := 0;
  }

  lemma {:induction false} SeqUnfolds(w: World, fuel: nat, s1: Stmt, s2: Stmt, live: seq<Local>, depth: nat, at: nat, k: nat,
      loop: Loop, st: Store)
    ensures Exec(w, fuel, Seq(s1, s2), st) ==
            var o := Exec(w, fuel, s1, st); if o.Normal? then Exec(w, fuel, s2, o.st) else o
    ensures GenStmt(Seq(s1, s2), live, depth, at, k, loop) ==
            var a := GenStmt(s1, live, depth, at, k, loop);
            var b := GenStmt(s2, live, depth, at + Size(a.code), k + |a.consts|, loop);
            Out(Join(a.code, b.code), a.consts + b.consts, a.ok && b.ok, a.tidy && b.tidy)
  {
    hide Evaluate, GenExpr, GenDecls, GenCases, ExecDecls, Join, Size, Pops, Deeper, WhileOut, DoOut, IterOut, UsingOut, BranchOut, PatchBreaks, Back, Holds, GenOpt, Chosen, IsFalse, Falsy, Op, LoopExit, LeaveScope, GenStmt, UnaryOut;
    GenSeq(s1, s2, live, depth, at, k, loop);
  }

  lemma {:induction false} SeqRuns(w: World, p: Program, fuel: nat, s1: Stmt, s2: Stmt, live: seq<Local>, depth: nat,
      at: nat, k: nat, loop: Loop, brk: int, st: Store) returns (n: nat)
    requires Ready(p, at, k, live, depth, loop, brk, st, GenStmt(Seq(s1, s2), live, depth, at, k, loop))
    ensures Ends(w, p, At(at, live, st, []), n, Exec(w, fuel, Seq(s1, s2), st), fuel,
      at + Size(GenStmt(Seq(s1, s2), live, depth, at, k, loop).code), live, depth, loop, brk)
    decreases fuel, Seq(s1, s2), 0
  {
    hide Describes, At, LeftAt, Steps, Exec, GenStmt, Evaluate, GenExpr, Has, Sits, ConstsAt, PatchBreaks, PatchFits, Size, IsFalse, Falsy, Join;
    SeqUnfolds(w, fuel, s1, s2, live, depth, at, k, loop, st);
    var a := GenStmt(s1, live, depth, at, k, loop);
    var b := GenStmt(s2, live, depth, at + Size(a.code), k + |a.consts|, loop);
    SeqInPlace(p, at, k, a, b, brk);
    n := StmtRuns(w, p, fuel, s1, live, depth, at, k, loop, brk, st);
    var o := Exec(w, fuel, s1, st);
    if o.Normal? {
      var n1 := StmtRuns(w, p, fuel, s2, live, depth, at + Size(a.code), k + |a.consts|, loop, brk, o.st);
      EndsAfter(w, p, At(at, live, st, []), n, n1, Exec(w, fuel, s2, o.st), fuel,
        at + Size(a.code) + Size(b.code), live, depth, loop, brk);
      n := n + n1;
    }
  }

  lemma {:induction false} EvalUnfolds(w: World, fuel: nat, e: Expr, live: seq<Local>, depth: nat, at: nat, k: nat,
      loop: Loop, st: Store)
    ensures Exec(w, fuel, Eval(e), st) ==
            var r := Evaluate(w, e, st); if r.Raised? then Failed(r.st) else Normal(r.st)
    ensures GenStmt(Eval(e), live, depth, at, k, loop) ==
            UnaryOut(GenExpr(e, live, k), Op(OP_POP))
  {
    hide Evaluate, GenExpr, GenDecls, GenCases, ExecDecls, Join, Size, Pops, Deeper, WhileOut, DoOut, IterOut, UsingOut, BranchOut, PatchBreaks, Back, Holds, GenOpt, Chosen, IsFalse, Falsy, Op, LoopExit, LeaveScope, GenStmt, UnaryOut;
    GenEval(e, live, depth, at, k, loop);
  }

  lemma {:induction false} EvalRuns(w: World, p: Program, fuel: nat, e: Expr, live: seq<Local>, depth: nat,
      at: nat, k: nat, loop: Loop, brk: int, st: Store) returns (n: nat)
    requires Ready(p, at, k, live, depth, loop, brk, st, GenStmt(Eval(e), live, depth, at, k, loop))
    ensures Ends(w, p, At(at, live, st, []), n, Exec(w, fuel, Eval(e), st), fuel,
      at + Size(GenStmt(Eval(e), live, depth, at, k, loop).code), live, depth, loop, brk)
    decreases fuel, Eval(e), 0
  {
    hide Describes, At, LeftAt, Steps, Exec, GenStmt, Evaluate, GenExpr, Has, Sits, ConstsAt, PatchBreaks, PatchFits, Size, IsFalse, Falsy, Join;
    EvalUnfolds(w, fuel, e, live, depth, at, k, loop, st);
    var a := GenExpr(e, live, k);
    QuietInPlace(p, at, k, UnaryOut(a, Op(OP_POP)), brk);
    UnarySits(p, at, k, a, Op(OP_POP));
    n := ExprRuns(w, p, e, live, live, k, at, st, []);
    var r := Evaluate(w, e, st);
    if r.Got? {
      PopRuns(w, p, live, at + Size(a.code), r.st, [], r.v);
      StepsAdd(w, p, At(at, live, st, []), n, 1);
      n := n + 1;
    }
  }

  lemma {:induction false} EchoUnfolds(w: World, fuel: nat, e: Expr, live: seq<Local>, depth: nat, at: nat, k: nat,
      loop: Loop, st: Store)
    ensures Exec(w, fuel, Echo(e), st) ==
            var r := Evaluate(w, e, st); if r.Raised? then Failed(r.st)
            else Normal(r.st.(echoed := r.st.echoed + [r.v]))
    ensures GenStmt(Echo(e), live, depth, at, k, loop) ==
            UnaryOut(GenExpr(e, live, k), Op(OP_ECHO))
  {
    hide Evaluate, GenExpr, GenDecls, GenCases, ExecDecls, Join, Size, Pops, Deeper, WhileOut, DoOut, IterOut, UsingOut, BranchOut, PatchBreaks, Back, Holds, GenOpt, Chosen, IsFalse, Falsy, Op, LoopExit, LeaveScope, GenStmt, UnaryOut;
    GenEval(e, live, depth, at, k, loop);
  }

  lemma {:induction false} EchoStep(w: World, p: Program, live: seq<Local>, at: nat, st: Store, v: Value)
    requires Describes(live, st.scopes) && Has(p, at, Op(OP_ECHO))
    ensures Steps(w, p, At(at, live, st, [] + [v]), 1) == At(at + 1, live, st.(echoed := st.echoed + [v]), [])
  {
    hide Describes, Slots;
    var s := At(at, live, st, [] + [v]);
    StepPlain(w, p, s, OP_ECHO);
    assert Peek(s.stack, 0) == v;
    assert Drop(s.stack, 1) == Slots(live, st.scopes) + [];
  }

  lemma {:induction false} EchoRuns(w: World, p: Program, fuel: nat, e: Expr, live: seq<Local>, depth: nat,
      at: nat, k: nat, loop: Loop, brk: int, st: Store) returns (n: nat)
    requires Ready(p, at, k, live, depth, loop, brk, st, GenStmt(Echo(e), live, depth, at, k, loop))
    ensures Ends(w, p, At(at, live, st, []), n, Exec(w, fuel, Echo(e), st), fuel,
      at + Size(GenStmt(Echo(e), live, depth, at, k, loop).code), live, depth, loop, brk)
    decreases fuel, Echo(e), 0
  {
    hide Describes, At, LeftAt, Steps, Exec, GenStmt, Evaluate, GenExpr, Has, Sits, ConstsAt, PatchBreaks, PatchFits, Size, IsFalse, Falsy, Join;
    EchoUnfolds(w, fuel, e, live, depth, at, k, loop, st);
    var a := GenExpr(e, live, k);
    QuietInPlace(p, at, k, UnaryOut(a, Op(OP_ECHO)), brk);
    UnarySits(p, at, k, a, Op(OP_ECHO));
    n := ExprRuns(w, p, e, live, live, k, at, st, []);
    var r := Evaluate(w, e, st);
    if r.Got? {
      EchoStep(w, p, live, at + Size(a.code), r.st, r.v);
      StepsAdd(w, p, At(at, live, st, []), n, 1);
      n := n + 1;
    }
  }

  lemma {:induction false} ReturnStep(w: World, p: Program, live: seq<Local>, at: nat, st: Store, v: Value)
    requires Describes(live, st.scopes) && Has(p, at, Op(OP_RETURN))
    ensures Steps(w, p, At(at, live, st, [] + [v]), 1) == Halted(v, st.globals, st.echoed)
  {
    hide Describes, Slots;
    StepPlain(w, p, At(at, live, st, [] + [v]), OP_RETURN);
  }

  lemma {:induction false} EmptyStep(w: World, p: Program, live: seq<Local>, at: nat, st: Store)
    requires Describes(live, st.scopes) && Has(p, at, Op(OP_EMPTY))
    ensures Steps(w, p, At(at, live, st, []), 1) == At(at + 1, live, st, [] + [Empty])
  {
    hide Describes, Slots;
    StepPlain(w, p, At(at, live, st, []), OP_EMPTY);
    assert Slots(live, st.scopes) + [] + [Empty] == Slots(live, st.scopes) + ([] + [Empty]);
  }

  lemma {:induction false} ReturnEmptyRuns(w: World, p: Program, live: seq<Local>, at: nat, st: Store)
    requires Describes(live, st.scopes) && Has(p, at, Join(Op(OP_EMPTY), Op(OP_RETURN)))
    ensures Steps(w, p, At(at, live, st, []), 2) == Halted(Empty, st.globals, st.echoed)
  {
    hide Describes, At, Has, Machine.Step;
    HasCat(p, at, Op(OP_EMPTY), Op(OP_RETURN));
    EmptyStep(w, p, live, at, st);
    ReturnStep(w, p, live, at + 1, st, Empty);
    StepsAdd(w, p, At(at, live, st, []), 1, 1);
  }

  lemma {:induction false} ReturnUnfolds(w: World, fuel: nat, r: Option<Expr>, live: seq<Local>, depth: nat, at: nat, k: nat,
      loop: Loop, st: Store)
    ensures Exec(w, fuel, Return(r), st) ==
            if r.None? then Returned(Empty, st) else
            var v := Evaluate(w, r.value, st); if v.Raised? then Failed(v.st) else Returned(v.v, v.st)
    ensures GenStmt(Return(r), live, depth, at, k, loop) ==
            if r.None? then Out(Join(Op(OP_EMPTY), Op(OP_RETURN)), [], true, true)
            else UnaryOut(GenExpr(r.value, live, k), Op(OP_RETURN))
  {
    hide Evaluate, GenExpr, GenDecls, GenCases, ExecDecls, Join, Size, Pops, Deeper, WhileOut, DoOut, IterOut, UsingOut, BranchOut, PatchBreaks, Back, Holds, GenOpt, Chosen, IsFalse, Falsy, Op, LoopExit, LeaveScope;
  }

  lemma {:induction false} ReturnRuns(w: World, p: Program, fuel: nat, r: Option<Expr>, live: seq<Local>, depth: nat,
      at: nat, k: nat, loop: Loop, brk: int, st: Store) returns (n: nat)
    requires Ready(p, at, k, live, depth, loop, brk, st, GenStmt(Return(r), live, depth, at, k, loop))
    ensures Ends(w, p, At(at, live, st, []), n, Exec(w, fuel, Return(r), st), fuel,
      at + Size(GenStmt(Return(r), live, depth, at, k, loop).code), live, depth, loop, brk)
    decreases fuel, Return(r), 0
  {
    hide Describes, At, LeftAt, Steps, Exec, GenStmt, Evaluate, GenExpr, Has, Sits, ConstsAt, PatchBreaks, PatchFits, Size, IsFalse, Falsy, Join;
    ReturnUnfolds(w, fuel, r, live, depth, at, k, loop, st);
    if r.None? {
      QuietInPlace(p, at, k, Out(Join(Op(OP_EMPTY), Op(OP_RETURN)), [], true, true), brk);
      EmptySits(p, at, k);
      ReturnEmptyRuns(w, p, live, at, st);
      n := 2;
    } else {
      var a := GenExpr(r.value, live, k);
      QuietInPlace(p, at, k, UnaryOut(a, Op(OP_RETURN)), brk);
      UnarySits(p, at, k, a, Op(OP_RETURN));
      n := ExprRuns(w, p, r.value, live, live, k, at, st, []);
      var v := Evaluate(w, r.value, st);
      if v.Got? {
        ReturnStep(w, p, live, at + Size(a.code), v.st, v.v);
        StepsAdd(w, p, At(at, live, st, []), n, 1);
        n := n + 1;
      }
    }
  }

  lemma {:induction false} EmptySits(p: Program, at: nat, k: nat)
    requires Sits(p, at, k, Out(Join(Op(OP_EMPTY), Op(OP_RETURN)), [], true, true))
    ensures Has(p, at, Join(Op(OP_EMPTY), Op(OP_RETURN)))
  {}

  /** `continue` pops the locals of the body and goes back to the loop. */
  lemma {:induction false} ContinueRuns(w: World, p: Program, fuel: nat, live: seq<Local>, depth: nat,
      at: nat, k: nat, loop: Loop, brk: int, st: Store) returns (n: nat)
    requires Ready(p, at, k, live, depth, loop, brk, st, GenStmt(Continue, live, depth, at, k, loop))
    ensures Ends(w, p, At(at, live, st, []), n, Exec(w, fuel, Continue, st), fuel,
      at + Size(GenStmt(Continue, live, depth, at, k, loop).code), live, depth, loop, brk)
  {
    hide Describes, Slots, Has, ConstsAt, PatchBreaks, PatchFits, Machine.Step, Deeper, Back, Size, Pops;
    var m := Deeper(live, loop.depth);
    var o := Out(Join(Pops(m), Back(at + m, loop.start)), [],
                 loop.start != -1 && BackFits(at + m, loop.start), |live| == loop.locals + m);
    assert GenStmt(Continue, live, depth, at, k, loop) == o;
    BackQuiet(at + m, loop.start);
    QuietInPlace(p, at, k, o, brk);
    HasCat(p, at, Pops(m), Back(at + m, loop.start));
    PopsSize(m);
    var s := At(at, live, st, []);
    assert s.stack == Slots(live, st.scopes);
    PopsRun(w, p, s, m);
    var s1 := s.(ip := at + m, stack := Drop(s.stack, m));
    BackRuns(w, p, s1, loop.start);
    StepsAdd(w, p, s, m, 1);
    n := m + 1;
  }

  lemma {:induction false} PopsSize(m: nat)
    ensures Size(Pops(m)) == m && NoBreaks(Pops(m))
  {}

  lemma {:induction false} BackQuiet(at: nat, start: int)
    ensures NoBreaks(Back(at, start)) && Size(Back(at, start)) == 3
  {}

  /** `break` jumps to the end of the loop; the body has no locals to drop. */
  lemma {:induction false} BreakRuns(w: World, p: Program, fuel: nat, live: seq<Local>, depth: nat,
      at: nat, k: nat, loop: Loop, brk: int, st: Store) returns (n: nat)
    requires Ready(p, at, k, live, depth, loop, brk, st, GenStmt(Break, live, depth, at, k, loop))
    ensures Ends(w, p, At(at, live, st, []), n, Exec(w, fuel, Break, st), fuel,
      at + Size(GenStmt(Break, live, depth, at, k, loop).code), live, depth, loop, brk)
  {
    hide Describes, Slots, Has, Machine.Step, StepOp16;
    var s := At(at, live, st, []);
    assert s.stack == Slots(live, st.scopes);
    JumpRuns(w, p, live, at, st, [], brk - at - 3);
    assert Slots(live, st.scopes)[..|live|] == Slots(live, st.scopes);
    n := 1;
  }

  lemma {:induction false} IfUnfolds(w: World, fuel: nat, e: Expr, t: Stmt, f: Stmt, live: seq<Local>, depth: nat, at: nat, k: nat,
      loop: Loop, st: Store)
    ensures Exec(w, fuel, If(e, t, f), st) ==
            var r := Evaluate(w, e, st); if r.Raised? then Failed(r.st)
            else if IsFalse(w, r.v) then Exec(w, fuel, f, r.st) else Exec(w, fuel, t, r.st)
    ensures GenStmt(If(e, t, f), live, depth, at, k, loop) ==
            var a := GenExpr(e, live, k);
            var b := GenStmt(t, live, depth, at + Size(a.code) + 4, k + |a.consts|, loop);
            BranchOut(a, b, GenStmt(f, live, depth, at + Size(a.code) + 4 + Size(b.code) + 4,
                                    k + |a.consts| + |b.consts|, loop))
  {
    hide Evaluate, GenExpr, GenDecls, GenCases, ExecDecls, Join, Size, Pops, Deeper, WhileOut, DoOut, IterOut, UsingOut, BranchOut, PatchBreaks, Back, Holds, GenOpt, Chosen, IsFalse, Falsy, Op, LoopExit, LeaveScope, GenStmt, UnaryOut;
    GenIf(e, t, f, live, depth, at, k, loop);
  }

  lemma {:induction false} IfRuns(w: World, p: Program, fuel: nat, e: Expr, t: Stmt, f: Stmt, live: seq<Local>, depth: nat,
      at: nat, k: nat, loop: Loop, brk: int, st: Store) returns (n: nat)
    requires Ready(p, at, k, live, depth, loop, brk, st, GenStmt(If(e, t, f), live, depth, at, k, loop))
    ensures Ends(w, p, At(at, live, st, []), n, Exec(w, fuel, If(e, t, f), st), fuel,
      at + Size(GenStmt(If(e, t, f), live, depth, at, k, loop).code), live, depth, loop, brk)
    decreases fuel, If(e, t, f), 0
  {
    hide Describes, At, LeftAt, Steps, Exec, GenStmt, Evaluate, GenExpr, Has, Sits, ConstsAt, PatchBreaks, PatchFits, Size, IsFalse, Falsy, Join;
    hide Branch;
    IfUnfolds(w, fuel, e, t, f, live, depth, at, k, loop, st);
    var a := GenExpr(e, live, k);
    var at1 := at + Size(a.code);
    var b := GenStmt(t, live, depth, at1 + 4, k + |a.consts|, loop);
    var at2 := at1 + 4 + Size(b.code);
    var d := GenStmt(f, live, depth, at2 + 4, k + |a.consts| + |b.consts|, loop);
    IfInPlace(p, at, k, a, b, d, brk);
    var s := At(at, live, st, []);
    n := ExprRuns(w, p, e, live, live, k, at, st, []);
    var r := Evaluate(w, e, st);
    if r.Got? {
      TestAndPop(w, p, live, at1, r.st, [], r.v, 4 + Size(b.code));
      if IsFalse(w, r.v) {
        PopRuns(w, p, live, at2 + 3, r.st, [], r.v);
        StepsAdd(w, p, s, n, 1);
        StepsAdd(w, p, s, n + 1, 1);
        var n1 := StmtRuns(w, p, fuel, f, live, depth, at2 + 4, k + |a.consts| + |b.consts|, loop, brk, r.st);
        EndsAfter(w, p, s, n + 2, n1, Exec(w, fuel, f, r.st), fuel, at2 + 4 + Size(d.code), live, depth, loop, brk);
        n := n + 2 + n1;
      } else {
        StepsAdd(w, p, s, n, 2);
        var n1 := StmtRuns(w, p, fuel, t, live, depth, at1 + 4, k + |a.consts|, loop, brk, r.st);
        EndsAfter(w, p, s, n + 2, n1, Exec(w, fuel, t, r.st), fuel, at2, live, depth, loop, brk);
        n := n + 2 + n1;
        var o := Exec(w, fuel, t, r.st);
        if o.Normal? {
          JumpRuns(w, p, live, at2, o.st, [], 1 + Size(d.code));
          StepsAdd(w, p, s, n, 1);
          n := n + 1;
        }
      }
    }
  }

  // ----- loops -----

  /** A loop body that leaves every local of the loop in place leaves the loop's store. */
  lemma {:induction false} LeftAll(ip: nat, live: seq<Local>, st: Store)
    requires Describes(live, st.scopes)
    ensures LeftAt(ip, live, st, |live|) == At(ip, live, st, [])
  {
    hide Describes, Slots;
    var slots := Slots(live, st.scopes);
    assert slots[..|live|] == slots + [];
  }

  lemma {:induction false} BackAt(w: World, p: Program, live: seq<Local>, at: nat, start: nat, st: Store)
    requires Describes(live, st.scopes) && Has(p, at, Back(at, start)) && BackFits(at, start)
    ensures Steps(w, p, At(at, live, st, []), 1) == At(start, live, st, [])
  {
    hide Describes, Slots, Has;
    BackRuns(w, p, At(at, live, st, []), start);
  }

  /** One turn of a loop takes at least one step, so the fuel outlasts the machine. */
  lemma {:induction false} EndsLater(w: World, p: Program, s: State, m: nat, n: nat, o: Outcome, fuel: nat, ip: nat,
                                     live: seq<Local>, depth: nat, loop: Loop, brk: int)
    requires m > 0 && fuel > 0 && Ends(w, p, Steps(w, p, s, m), n, o, fuel - 1, ip, live, depth, loop, brk)
    ensures Ends(w, p, s, m + n, o, fuel, ip, live, depth, loop, brk)
  {
    hide Describes, Slots, Steps, At;
    StepsAdd(w, p, s, m, n);
  }

  /** What is left once the body of a loop has neither finished normally nor continued. */
  lemma {:induction false} BodyLeaves(w: World, p: Program, s: State, n: nat, o: Outcome, fuel: nat, ip: nat, end: nat,
                                      live: seq<Local>, depth: nat, inner: Loop, loop: Loop, brk: int)
    requires Ends(w, p, s, n, o, fuel, ip, live, depth, inner, end) && inner.locals == |live|
    requires !o.Normal? && !o.Continued?
    ensures Ends(w, p, s, n, LoopExit(o), fuel, end, live, depth, loop, brk)
  {
    hide Describes, Steps, At, LeftAt;
    if o.Broke? { LeftAll(end, live, o.st); }
  }

  lemma {:induction false} WhileUnfolds(w: World, fuel: nat, e: Expr, body: Stmt, live: seq<Local>, depth: nat, at: nat, k: nat,
      loop: Loop, st: Store)
    ensures Exec(w, fuel, While(e, body), st) ==
            if fuel == 0 then Timeout else
            var r := Evaluate(w, e, st);
            if r.Raised? then Failed(r.st) else if IsFalse(w, r.v) then Normal(r.st) else
            var o := Exec(w, fuel, body, r.st);
            if o.Normal? || o.Continued? then Exec(w, fuel - 1, While(e, body), o.st) else LoopExit(o)
    ensures GenStmt(While(e, body), live, depth, at, k, loop) ==
            var a := GenExpr(e, live, k);
            WhileOut(a, GenStmt(body, live, depth, at + Size(a.code) + 4, k + |a.consts|,
                                Loop(at, loop.depth, |live|)), at)
  {
    hide Evaluate, GenExpr, GenDecls, GenCases, ExecDecls, Join, Size, Pops, Deeper, WhileOut, DoOut, IterOut, UsingOut, BranchOut, PatchBreaks, Back, Holds, GenOpt, Chosen, IsFalse, Falsy, Op, LoopExit, LeaveScope, GenStmt, UnaryOut;
    GenWhile(e, body, live, depth, at, k, loop);
  }

  lemma {:induction false} WhileRuns(w: World, p: Program, fuel: nat, e: Expr, body: Stmt, live: seq<Local>, depth: nat,
      at: nat, k: nat, loop: Loop, brk: int, st: Store) returns (n: nat)
    requires Ready(p, at, k, live, depth, loop, brk, st, GenStmt(While(e, body), live, depth, at, k, loop))
    ensures Ends(w, p, At(at, live, st, []), n, Exec(w, fuel, While(e, body), st), fuel,
      at + Size(GenStmt(While(e, body), live, depth, at, k, loop).code), live, depth, loop, brk)
    decreases fuel, While(e, body), 0
  {
    hide Describes, At, LeftAt, Steps, Exec, GenStmt, Evaluate, GenExpr, Has, Sits, ConstsAt, PatchBreaks, PatchFits, Size, IsFalse, Falsy, Join;
    hide LoopExit, WhileOut;
    WhileUnfolds(w, fuel, e, body, live, depth, at, k, loop, st);
    var inner := Loop(at, loop.depth, |live|);
    var a := GenExpr(e, live, k);
    var at1 := at + Size(a.code);
    var b := GenStmt(body, live, depth, at1 + 4, k + |a.consts|, inner);
    var atBack := at1 + 4 + Size(b.code);
    WhileQuiet(a, b, at);
    var all := WhileOut(a, b, at);
    QuietInPlace(p, at, k, all, brk);
    WhileSits(p, at, k, a, b);
    var s := At(at, live, st, []);
    n := 0;
    if fuel == 0 {
      AtRuns(w, p, at, live, st);
    } else {
      n := ExprRuns(w, p, e, live, live, k, at, st, []);
      var r := Evaluate(w, e, st);
      if r.Got? {
        TestAndPop(w, p, live, at1, r.st, [], r.v, 4 + Size(b.code));
        if IsFalse(w, r.v) {
          PopRuns(w, p, live, atBack + 3, r.st, [], r.v);
          StepsAdd(w, p, s, n, 1);
          StepsAdd(w, p, s, n + 1, 1);
          n := n + 2;
        } else {
          StepsAdd(w, p, s, n, 2);
          var o := Exec(w, fuel, body, r.st);
          var n1 := StmtRuns(w, p, fuel, body, live, depth, at1 + 4, k + |a.consts|, inner, atBack + 4, r.st);
          EndsAfter(w, p, s, n + 2, n1, o, fuel, atBack, live, depth, inner, atBack + 4);
          n := n + 2 + n1;
          if o.Normal? || o.Continued? {
            if o.Normal? {
              BackAt(w, p, live, atBack, at, o.st);
              StepsAdd(w, p, s, n, 1);
              n := n + 1;
            } else {
              LeftAll(at, live, o.st);
            }
            var n2 := StmtRuns(w, p, fuel - 1, While(e, body), live, depth, at, k, loop, brk, o.st);
            EndsLater(w, p, s, n, n2, Exec(w, fuel - 1, While(e, body), o.st), fuel,
              at + Size(all.code), live, depth, loop, brk);
            n := n + n2;
          } else {
            BodyLeaves(w, p, s, n, o, fuel, atBack, atBack + 4, live, depth, inner, loop, brk);
          }
        }
      }
    }
  }

  lemma {:induction false} AtRuns(w: World, p: Program, at: nat, live: seq<Local>, st: Store)
    requires Describes(live, st.scopes)
    ensures Steps(w, p, At(at, live, st, []), 0).Running?
  {
    hide Describes, Slots;
  }

  lemma {:induction false} DoUnfolds(w: World, fuel: nat, body: Stmt, e: Expr, live: seq<Local>, depth: nat, at: nat, k: nat,
      loop: Loop, st: Store)
    ensures Exec(w, fuel, DoWhile(body, e), st) ==
            if fuel == 0 then Timeout else
            var o := Exec(w, fuel, body, st);
            if o.Continued? then Exec(w, fuel - 1, DoWhile(body, e), o.st) else
            if !o.Normal? then LoopExit(o) else
            var r := Evaluate(w, e, o.st);
            if r.Raised? then Failed(r.st) else if IsFalse(w, r.v) then Normal(r.st)
            else Exec(w, fuel - 1, DoWhile(body, e), r.st)
    ensures GenStmt(DoWhile(body, e), live, depth, at, k, loop) ==
            var b := GenStmt(body, live, depth, at, k, Loop(at, loop.depth, |live|));
            DoOut(b, GenExpr(e, live, k + |b.consts|), at)
  {
    hide Evaluate, GenExpr, GenDecls, GenCases, ExecDecls, Join, Size, Pops, Deeper, WhileOut, DoOut, IterOut, UsingOut, BranchOut, PatchBreaks, Back, Holds, GenOpt, Chosen, IsFalse, Falsy, Op, LoopExit, LeaveScope, GenStmt, UnaryOut;
    GenDo(body, e, live, depth, at, k, loop);
  }

  lemma {:induction false} DoRuns(w: World, p: Program, fuel: nat, body: Stmt, e: Expr, live: seq<Local>, depth: nat,
      at: nat, k: nat, loop: Loop, brk: int, st: Store) returns (n: nat)
    requires Ready(p, at, k, live, depth, loop, brk, st, GenStmt(DoWhile(body, e), live, depth, at, k, loop))
    ensures Ends(w, p, At(at, live, st, []), n, Exec(w, fuel, DoWhile(body, e), st), fuel,
      at + Size(GenStmt(DoWhile(body, e), live, depth, at, k, loop).code), live, depth, loop, brk)
    decreases fuel, DoWhile(body, e), 0
  {
    hide Describes, At, LeftAt, Steps, Exec, GenStmt, Evaluate, GenExpr, Has, Sits, ConstsAt, PatchBreaks, PatchFits, Size, IsFalse, Falsy, Join;
    hide LoopExit, DoOut;
    DoUnfolds(w, fuel, body, e, live, depth, at, k, loop, st);
    var inner := Loop(at, loop.depth, |live|);
    var b := GenStmt(body, live, depth, at, k, inner);
    var a := GenExpr(e, live, k + |b.consts|);
    var at1 := at + Size(b.code);
    var at2 := at1 + Size(a.code);
    var atBack := at2 + 4;
    DoQuiet(b, a, at);
    var all := DoOut(b, a, at);
    QuietInPlace(p, at, k, all, brk);
    DoSits(p, at, k, b, a);
    var s := At(at, live, st, []);
    n := 0;
    if fuel == 0 {
      AtRuns(w, p, at, live, st);
    } else {
      var o := Exec(w, fuel, body, st);
      n := StmtRuns(w, p, fuel, body, live, depth, at, k, inner, atBack + 4, st);
      if o.Continued? {
        LeftAll(at, live, o.st);
        var n2 := StmtRuns(w, p, fuel - 1, DoWhile(body, e), live, depth, at, k, loop, brk, o.st);
        EndsLater(w, p, s, n, n2, Exec(w, fuel - 1, DoWhile(body, e), o.st), fuel,
          at + Size(all.code), live, depth, loop, brk);
        n := n + n2;
      } else if !o.Normal? {
        BodyLeaves(w, p, s, n, o, fuel, at1, atBack + 4, live, depth, inner, loop, brk);
      } else {
        var n1 := ExprRuns(w, p, e, live, live, k + |b.consts|, at1, o.st, []);
        StepsAdd(w, p, s, n, n1);
        n := n + n1;
        var r := Evaluate(w, e, o.st);
        if r.Got? {
          TestAndPop(w, p, live, at2, r.st, [], r.v, 4);
          if IsFalse(w, r.v) {
            PopRuns(w, p, live, atBack + 3, r.st, [], r.v);
            StepsAdd(w, p, s, n, 1);
            StepsAdd(w, p, s, n + 1, 1);
            n := n + 2;
          } else {
            BackAt(w, p, live, atBack, at, r.st);
            StepsAdd(w, p, s, n, 2);
            StepsAdd(w, p, s, n + 2, 1);
            n := n + 3;
            var n2 := StmtRuns(w, p, fuel - 1, DoWhile(body, e), live, depth, at, k, loop, brk, r.st);
            EndsLater(w, p, s, n, n2, Exec(w, fuel - 1, DoWhile(body, e), r.st), fuel,
              at + Size(all.code), live, depth, loop, brk);
            n := n + n2;
          }
        }
      }
    }
  }

  lemma {:induction false} IterUnfolds(w: World, fuel: nat, c: Option<Expr>, i: Option<Expr>, body: Stmt, live: seq<Local>, depth: nat, at: nat, k: nat,
      loop: Loop, st: Store)
    ensures Exec(w, fuel, IterLoop(c, i, body), st) ==
            if fuel == 0 then Timeout else
            var t := Holds(w, c, st);
            if t.Raised? then Failed(t.st) else if IsFalse(w, t.v) then Normal(t.st) else
            var o := Exec(w, fuel, body, t.st);
            if !o.Normal? && !o.Continued? then LoopExit(o) else
            var j := Holds(w, i, o.st);
            if j.Raised? then Failed(j.st) else Exec(w, fuel - 1, IterLoop(c, i, body), j.st)
    ensures GenStmt(IterLoop(c, i, body), live, depth, at, k, loop) ==
            var a := GenOpt(c, live, k);
            var b := GenOpt(i, live, k + |a.consts|);
            var sh := IterShape(c.Some?, i.Some?, Size(a.code), Size(b.code), at);
            IterOut(sh, a, b, GenStmt(body, live, depth, sh.AtBody(), k + |a.consts| + |b.consts|,
                                      Loop(sh.Start(), depth, |live|)))
  {
    hide Evaluate, GenExpr, GenDecls, GenCases, ExecDecls, Join, Size, Pops, Deeper, WhileOut, DoOut, IterOut, UsingOut, BranchOut, PatchBreaks, Back, Holds, GenOpt, Chosen, IsFalse, Falsy, Op, LoopExit, LeaveScope, GenStmt, UnaryOut;
    GenIter(c, i, body, live, depth, at, k, loop);
  }

  /** The test of an `iter` loop: on to the body, out of the loop, or an error. */
  lemma {:induction false} IterTestRuns(w: World, p: Program, c: Option<Expr>, live: seq<Local>, k: nat, sh: IterShape,
      a: Out, i: Out, b: Out, st: Store) returns (n: nat)
    requires Describes(live, st.scopes) && IterPieces(p, k, sh, a, i, b)
    requires a == GenOpt(c, live, k) && sh.cond == Size(a.code) && sh.hasCond == c.Some?
    ensures var t := Holds(w, c, st); var s := At(sh.at, live, st, []);
            var end := sh.at + Size(IterOut(sh, a, i, b).code);
            match t
            case Raised(st1) => Steps(w, p, s, n) == Errored(st1.globals, st1.echoed)
            case Got(v, st1) =>
              && Describes(live, st1.scopes)
              && Steps(w, p, s, n) == At(if IsFalse(w, v) then end else sh.AtStep(), live, st1, [])
  {
    hide Describes, At, Steps, Evaluate, GenExpr, Has, Sits, ConstsAt, PatchBreaks, PatchFits, Size, IterOut;
    var s := At(sh.at, live, st, []);
    n := 0;
    if c.Some? {
      var atBack := sh.AtBody() + Size(b.code);
      n := ExprRuns(w, p, c.value, live, live, k, sh.at, st, []);
      var r := Evaluate(w, c.value, st);
      if r.Got? {
        TestAndPop(w, p, live, sh.at + sh.cond, r.st, [], r.v, atBack - sh.at - sh.cond);
        if IsFalse(w, r.v) {
          PopRuns(w, p, live, atBack + 3, r.st, [], r.v);
          StepsAdd(w, p, s, n, 1);
          StepsAdd(w, p, s, n + 1, 1);
        } else {
          StepsAdd(w, p, s, n, 2);
        }
        n := n + 2;
      }
    } else {
      StepsNone(w, p, s);
    }
  }

  /** The increment, when there is one, runs on the way back to the test. */
  lemma {:induction false} IterStepRuns(w: World, p: Program, i: Option<Expr>, live: seq<Local>, k: nat, sh: IterShape,
      a: Out, b: Out, d: Out, st: Store) returns (n: nat)
    requires Describes(live, st.scopes) && IterPieces(p, k, sh, a, b, d)
    requires b == GenOpt(i, live, k + |a.consts|) && sh.incr == Size(b.code) && sh.hasIncr == i.Some?
    ensures var t := Holds(w, i, st); var s := At(sh.Start(), live, st, []);
            match t
            case Raised(st1) => Steps(w, p, s, n) == Errored(st1.globals, st1.echoed)
            case Got(_, st1) => Describes(live, st1.scopes) && Steps(w, p, s, n) == At(sh.at, live, st1, [])
  {
    hide Describes, At, Steps, Evaluate, GenExpr, Has, Sits, ConstsAt, PatchBreaks, PatchFits, Size, IterOut, Back;
    var s := At(sh.Start(), live, st, []);
    n := 0;
    if i.Some? {
      n := ExprRuns(w, p, i.value, live, live, k + |a.consts|, sh.AtIncr(), st, []);
      var r := Evaluate(w, i.value, st);
      if r.Got? {
        PopRuns(w, p, live, sh.AtIncr() + sh.incr, r.st, [], r.v);
        BackAt(w, p, live, sh.AtIncr() + sh.incr + 1, sh.at, r.st);
        StepsAdd(w, p, s, n, 1);
        StepsAdd(w, p, s, n + 1, 1);
        n := n + 2;
      }
    } else {
      StepsNone(w, p, s);
    }
  }

  lemma {:induction false} StepsNone(w: World, p: Program, s: State)
    ensures Steps(w, p, s, 0) == s
  {}

  /** Over the increment to the body. */
  lemma {:induction false} IterSkipRuns(w: World, p: Program, live: seq<Local>, k: nat, sh: IterShape, a: Out, b: Out,
      d: Out, st: Store) returns (n: nat)
    requires Describes(live, st.scopes) && IterPieces(p, k, sh, a, b, d)
    ensures Steps(w, p, At(sh.AtStep(), live, st, []), n) == At(sh.AtBody(), live, st, [])
  {
    hide Describes, At, Has, Sits, ConstsAt, InPlace, Size, IterOut, Machine.Step;
    n := 0;
    if sh.hasIncr {
      JumpRuns(w, p, live, sh.AtStep(), st, [], sh.incr + 4);
      n := 1;
    }
  }

  lemma {:induction false} IterRuns(w: World, p: Program, fuel: nat, c: Option<Expr>, i: Option<Expr>, body: Stmt, live: seq<Local>, depth: nat,
      at: nat, k: nat, loop: Loop, brk: int, st: Store) returns (n: nat)
    requires Ready(p, at, k, live, depth, loop, brk, st, GenStmt(IterLoop(c, i, body), live, depth, at, k, loop))
    ensures Ends(w, p, At(at, live, st, []), n, Exec(w, fuel, IterLoop(c, i, body), st), fuel,
      at + Size(GenStmt(IterLoop(c, i, body), live, depth, at, k, loop).code), live, depth, loop, brk)
    decreases fuel, IterLoop(c, i, body), 0
  {
    hide Describes, At, LeftAt, Steps, Exec, GenStmt, Evaluate, GenExpr, Has, Sits, ConstsAt, PatchBreaks, PatchFits, Size, IsFalse, Falsy, Join;
    hide LoopExit, IterOut, Holds, GenOpt, IterPieces;
    IterUnfolds(w, fuel, c, i, body, live, depth, at, k, loop, st);
    var a := GenOpt(c, live, k);
    var b := GenOpt(i, live, k + |a.consts|);
    var sh := IterShape(c.Some?, i.Some?, Size(a.code), Size(b.code), at);
    var inner := Loop(sh.Start(), depth, |live|);
    var d := GenStmt(body, live, depth, sh.AtBody(), k + |a.consts| + |b.consts|, inner);
    var all := IterOut(sh, a, b, d);
    IterQuiet(sh, a, b, d);
    QuietInPlace(p, at, k, all, brk);
    IterSits(p, k, sh, a, b, d);
    var atBack := sh.AtBody() + Size(d.code);
    var end := at + Size(all.code);
    IterEnd(p, k, sh, a, b, d);
    var s := At(at, live, st, []);
    n := 0;
    if fuel == 0 {
      AtRuns(w, p, at, live, st);
    } else {
      n := IterTestRuns(w, p, c, live, k, sh, a, b, d, st);
      var t := Holds(w, c, st);
      if t.Got? && !IsFalse(w, t.v) {
        var n1 := IterSkipRuns(w, p, live, k, sh, a, b, d, t.st);
        StepsAdd(w, p, s, n, n1);
        n := n + n1;
        var o := Exec(w, fuel, body, t.st);
        n1 := StmtRuns(w, p, fuel, body, live, depth, sh.AtBody(), k + |a.consts| + |b.consts|, inner, end, t.st);
        EndsAfter(w, p, s, n, n1, o, fuel, atBack, live, depth, inner, end);
        n := n + n1;
        if o.Normal? || o.Continued? {
          if o.Normal? {
            BackAt(w, p, live, atBack, sh.Start(), o.st);
            StepsAdd(w, p, s, n, 1);
            n := n + 1;
          } else {
            LeftAll(sh.Start(), live, o.st);
          }
          n1 := IterStepRuns(w, p, i, live, k, sh, a, b, d, o.st);
          StepsAdd(w, p, s, n, n1);
          n := n + n1;
          var j := Holds(w, i, o.st);
          if j.Got? {
            var n2 := StmtRuns(w, p, fuel - 1, IterLoop(c, i, body), live, depth, at, k, loop, brk, j.st);
            EndsLater(w, p, s, n, n2, Exec(w, fuel - 1, IterLoop(c, i, body), j.st), fuel, end, live, depth, loop, brk);
            n := n + n2;
          }
        } else {
          BodyLeaves(w, p, s, n, o, fuel, atBack, end, live, depth, inner, loop, brk);
        }
      }
    }
  }

  lemma {:induction false} IterEnd(p: Program, k: nat, sh: IterShape, c: Out, i: Out, b: Out)
    requires IterPieces(p, k, sh, c, i, b)
    ensures var atBack := sh.AtBody() + Size(b.code); var end := sh.at + Size(IterOut(sh, c, i, b).code);
            && Has(p, atBack, Back(atBack, sh.Start())) && BackFits(atBack, sh.Start())
            && InPlace(p, sh.AtBody(), k + |c.consts| + |i.consts|, b, end)
  {
    hide Has, Sits, ConstsAt, InPlace, IterOut, Size;
  }

  // ----- blocks -----

  ghost function Plain(o: DeclsOut): Out { Out(o.code, o.consts, o.ok, o.tidy) }

  /** As `Ends`, for the declarations of a scope: jumps out of it also close the scope. */
  ghost predicate DeclsEnd(w: World, p: Program, s: State, n: nat, o: Outcome, fuel: nat, ip: nat,
                           outer: seq<Local>, inner: seq<Local>, depth: nat, loop: Loop, brk: int)
  {
    match o
    case Normal(st) =>
      Describes(inner, st.scopes) && |st.scopes| == depth + 1 && Steps(w, p, s, n) == At(ip, inner, st, [])
    case Continued(st) =>
      && Describes(outer, Leave(st).scopes) && |st.scopes| == depth + 1
      && loop.start >= 0 && loop.locals <= |outer| && n > 0
      && Steps(w, p, s, n) == LeftAt(loop.start, outer, Leave(st), loop.locals)
    case Broke(st) =>
      && Describes(outer, Leave(st).scopes) && |st.scopes| == depth + 1
      && brk >= 0 && loop.locals <= |outer|
      && Steps(w, p, s, n) == LeftAt(brk, outer, Leave(st), loop.locals)
    case Returned(v, st) => Steps(w, p, s, n) == Halted(v, st.globals, st.echoed)
    case Failed(st) => Steps(w, p, s, n) == Errored(st.globals, st.echoed)
    case Timeout => n >= fuel && Steps(w, p, s, n).Running?
  }

  ghost predicate DeclsReady(p: Program, at: nat, k: nat, outer: seq<Local>, live: seq<Local>, depth: nat, loop: Loop,
                             brk: int, st: Store, o: Out)
  {
    && Describes(live, st.scopes) && |st.scopes| == depth + 1 && OneScopeMore(outer, live, depth)
    && LoopOk(loop, brk, outer) && InPlace(p, at, k, o, brk)
  }

  lemma {:induction false} DeclsAfter(w: World, p: Program, s: State, m: nat, n: nat, o: Outcome, fuel: nat, ip: nat,
      outer: seq<Local>, inner: seq<Local>, depth: nat, loop: Loop, brk: int)
    requires DeclsEnd(w, p, Steps(w, p, s, m), n, o, fuel, ip, outer, inner, depth, loop, brk)
    ensures DeclsEnd(w, p, s, m + n, o, fuel, ip, outer, inner, depth, loop, brk)
  {
    hide Describes, Slots, Steps, At, LeftAt, Leave;
    StepsAdd(w, p, s, m, n);
  }

  /** A jump out of the scope finds the enclosing locals untouched. */
  lemma {:induction false} LeftOuter(ip: nat, outer: seq<Local>, live: seq<Local>, st: Store, m: nat)
    requires Describes(live, st.scopes) && |st.scopes| > 0 && OneScopeMore(outer, live, |st.scopes| - 1) && m <= |outer|
    ensures Describes(outer, Leave(st).scopes) && m <= |live|
    ensures LeftAt(ip, live, st, m) == LeftAt(ip, outer, Leave(st), m)
  {
    hide Describes, Slots;
    LeaveDescribes(outer, live, st.scopes);
    var slots := Slots(live, st.scopes);
    assert slots[..m] == slots[..|outer|][..m];
  }

  lemma {:induction false} StmtInDecls(w: World, p: Program, s: State, n: nat, o: Outcome, fuel: nat, ip: nat,
      outer: seq<Local>, live: seq<Local>, inner: seq<Local>, depth: nat, loop: Loop, brk: int)
    requires Ends(w, p, s, n, o, fuel, ip, live, depth, loop, brk) && !o.Normal?
    requires OneScopeMore(outer, live, depth) && loop.locals <= |outer|
    ensures DeclsEnd(w, p, s, n, o, fuel, ip, outer, inner, depth, loop, brk)
  {
    hide Describes, Slots, Steps, At, LeftAt, Leave, OneScopeMore;
    if o.Continued? { LeftOuter(loop.start, outer, live, o.st, loop.locals); }
    if o.Broke? { LeftOuter(brk, outer, live, o.st, loop.locals); }
  }

  lemma {:induction false} DeclsUnfold(w: World, fuel: nat, ds: Decls, live: seq<Local>, depth: nat, at: nat, k: nat,
      loop: Loop, st: Store)
    ensures ExecDecls(w, fuel, ds, st) ==
            match ds
            case Done => Normal(st)
            case Declare(x, init, rest) =>
              (var r := InitValue(w, init, st); if r.Raised? then Failed(r.st) else
               ExecDecls(w, fuel, rest, r.st.(scopes := Bind(r.st.scopes, x, r.v))))
            case Then(s, rest) =>
              (var o := Exec(w, fuel, s, st); if o.Normal? then ExecDecls(w, fuel, rest, o.st) else o)
    ensures GenDecls(ds, live, depth, at, k, loop) ==
            match ds
            case Done => DeclsOut(Nop, [], true, true, live)
            case Declare(x, init, rest) =>
              (var a := InitOut(x, init, live, k);
               var b := GenDecls(rest, live + [Local(x, depth)], depth, at + Size(a.code), k + |a.consts|, loop);
               DeclsOut(Join(a.code, b.code), a.consts + b.consts,
                        a.ok && b.ok && !Clashes(live, depth, x) && |live| < MAX_LOCALS, b.tidy, b.locals))
            case Then(s, rest) =>
              (var a := GenStmt(s, live, depth, at, k, loop);
               var b := GenDecls(rest, live, depth, at + Size(a.code), k + |a.consts|, loop);
               DeclsOut(Join(a.code, b.code), a.consts + b.consts, a.ok && b.ok, a.tidy && b.tidy, b.locals))
  {
    hide Evaluate, GenExpr, GenStmt, Exec, Bind, Join, Size, Clashes;
  }

  ghost function InitValue(w: World, init: Option<Expr>, st: Store): Evaluated {
    if init.None? then Got(Nil, st) else Evaluate(w, init.value, st)
  }

  /** An initializer leaves its value where the new local's slot will be. */
  lemma {:induction false} InitRuns(w: World, p: Program, x: string, init: Option<Expr>, live: seq<Local>, k: nat,
      at: nat, st: Store) returns (n: nat)
    requires Describes(live, st.scopes) && Sits(p, at, k, InitOut(x, init, live, k))
    ensures Reaches(w, p, At(at, live, st, []), n, InitValue(w, init, st),
                    at + Size(InitOut(x, init, live, k).code), live, [])
  {
    hide Describes, Slots, Evaluate, GenExpr;
    if init.None? {
      StepPlain(w, p, At(at, live, st, []), OP_NIL);
      assert Slots(live, st.scopes) + [] + [Nil] == Slots(live, st.scopes) + ([] + [Nil]);
      n := 1;
    } else {
      var listed := live + [Local(x, -1)];
      assert listed[..|live|] == live;
      n := ExprRuns(w, p, init.value, listed, live, k, at, st, []);
    }
  }

  lemma {:induction false} BindAt(ip: nat, live: seq<Local>, st: Store, x: string, v: Value)
    requires Describes(live, st.scopes) && |st.scopes| > 0 && |live| < MAX_LOCALS && !Clashes(live, |st.scopes| - 1, x)
    ensures var live' := live + [Local(x, |st.scopes| - 1)]; var st' := st.(scopes := Bind(st.scopes, x, v));
            Describes(live', st'.scopes) && At(ip, live, st, [] + [v]) == At(ip, live', st', [])
  {
    hide Describes, Slots, Clashes, Bind;
    BindDescribes(live, st.scopes, x, v);
    assert Slots(live, st.scopes) + ([] + [v]) == Slots(live, st.scopes) + [v] + [];
  }

  lemma {:induction false} DeclareInPlace(p: Program, at: nat, k: nat, a: Out, b: Out, brk: int, ok: bool)
    requires InPlace(p, at, k, Out(Join(a.code, b.code), a.consts + b.consts, a.ok && b.ok && ok, b.tidy), brk)
    requires NoBreaks(a.code) && a.tidy
    ensures Sits(p, at, k, a) && InPlace(p, at + Size(a.code), k + |a.consts|, b, brk)
  {
    hide Has, ConstsAt, PatchBreaks, PatchFits, Join;
    SeqInPlace(p, at, k, a, b, brk);
    QuietInPlace(p, at, k, a, brk);
  }

  /** Running the code of a block's declarations and statements. */
  lemma {:induction false} DeclsRuns(w: World, p: Program, fuel: nat, ds: Decls, outer: seq<Local>, live: seq<Local>,
      depth: nat, at: nat, k: nat, loop: Loop, brk: int, st: Store) returns (n: nat)
    requires DeclsReady(p, at, k, outer, live, depth, loop, brk, st, Plain(GenDecls(ds, live, depth, at, k, loop)))
    ensures var o := GenDecls(ds, live, depth, at, k, loop);
            DeclsEnd(w, p, At(at, live, st, []), n, ExecDecls(w, fuel, ds, st), fuel, at + Size(o.code),
                     outer, o.locals, depth, loop, brk)
    decreases fuel, ds, 1
  {
    hide Describes, At, LeftAt, Steps, Exec, ExecDecls, GenStmt, GenDecls, Has, Sits, ConstsAt, PatchBreaks, PatchFits, Size;
    hide Evaluate, GenExpr, Join, InitOut, InitValue, Bind, Leave, Clashes, OneScopeMore, InPlace, LoopOk;
    DeclsUnfold(w, fuel, ds, live, depth, at, k, loop, st);
    var s := At(at, live, st, []);
    n := 0;
    match ds
    case Done =>
      NopSize();
      StepsNone(w, p, s);
    case Declare(x, init, rest) =>
      n := DeclareRuns(w, p, fuel, x, init, rest, outer, live, depth, at, k, loop, brk, st);
    case Then(s1, rest) =>
      var a := GenStmt(s1, live, depth, at, k, loop);
      var b := GenDecls(rest, live, depth, at + Size(a.code), k + |a.consts|, loop);
      SeqInPlace(p, at, k, a, Plain(b), brk);
      OuterLoop(loop, brk, outer, live, depth);
      n := StmtRuns(w, p, fuel, s1, live, depth, at, k, loop, brk, st);
      var o := Exec(w, fuel, s1, st);
      if o.Normal? {
        var n1 := DeclsRuns(w, p, fuel, rest, outer, live, depth, at + Size(a.code), k + |a.consts|, loop, brk, o.st);
        DeclsAfter(w, p, s, n, n1, ExecDecls(w, fuel, rest, o.st), fuel, at + Size(a.code) + Size(b.code),
          outer, b.locals, depth, loop, brk);
        n := n + n1;
      } else {
        StmtInDecls(w, p, s, n, o, fuel, at + Size(a.code), outer, live, b.locals, depth, loop, brk);
      }
  }

  lemma {:induction false} NopSize()
    ensures Size(Nop) == 0
  {}

  lemma {:induction false} OuterLoop(loop: Loop, brk: int, outer: seq<Local>, live: seq<Local>, depth: nat)
    requires LoopOk(loop, brk, outer) && OneScopeMore(outer, live, depth)
    ensures LoopOk(loop, brk, live) && loop.locals <= |outer|
  {}

  lemma {:induction false} DeclareRuns(w: World, p: Program, fuel: nat, x: string, init: Option<Expr>, rest: Decls,
      outer: seq<Local>, live: seq<Local>, depth: nat, at: nat, k: nat, loop: Loop, brk: int, st: Store) returns (n: nat)
    requires DeclsReady(p, at, k, outer, live, depth, loop, brk, st,
                        Plain(GenDecls(Declare(x, init, rest), live, depth, at, k, loop)))
    ensures var o := GenDecls(Declare(x, init, rest), live, depth, at, k, loop);
            DeclsEnd(w, p, At(at, live, st, []), n, ExecDecls(w, fuel, Declare(x, init, rest), st), fuel,
                     at + Size(o.code), outer, o.locals, depth, loop, brk)
    decreases fuel, Declare(x, init, rest), 0
  {
    hide Describes, At, LeftAt, Steps, Exec, ExecDecls, GenStmt, GenDecls, Has, Sits, ConstsAt, PatchBreaks, PatchFits, Size;
    hide Evaluate, GenExpr, Join, InitOut, InitValue, Bind, Leave, Clashes, LoopOk;
    DeclsUnfold(w, fuel, Declare(x, init, rest), live, depth, at, k, loop, st);
    var s := At(at, live, st, []);
    var live' := live + [Local(x, depth)];
    var a := InitOut(x, init, live, k);
    var b := GenDecls(rest, live', depth, at + Size(a.code), k + |a.consts|, loop);
    InitQuiet(w, x, init, live, k, st);
    DeclareInPlace(p, at, k, a, Plain(b), brk, !Clashes(live, depth, x) && |live| < MAX_LOCALS);
    n := InitRuns(w, p, x, init, live, k, at, st);
    var r := InitValue(w, init, st);
    if r.Got? {
      var st' := r.st.(scopes := Bind(r.st.scopes, x, r.v));
      BindAt(at + Size(a.code), live, r.st, x, r.v);
      BindLength(r.st.scopes, x, r.v);
      var n1 := DeclsRuns(w, p, fuel, rest, outer, live', depth, at + Size(a.code), k + |a.consts|, loop, brk, st');
      DeclsAfter(w, p, s, n, n1, ExecDecls(w, fuel, rest, st'), fuel, at + Size(a.code) + Size(b.code),
        outer, b.locals, depth, loop, brk);
      n := n + n1;
    }
  }

  lemma {:induction false} InitQuiet(w: World, x: string, init: Option<Expr>, live: seq<Local>, k: nat, st: Store)
    ensures var a := InitOut(x, init, live, k); NoBreaks(a.code) && a.tidy
    ensures |InitValue(w, init, st).st.scopes| == |st.scopes|
  {
    hide GenExpr, Evaluate;
  }

  lemma {:induction false} BindLength(scopes: seq<Scope>, x: string, v: Value)
    requires |scopes| > 0
    ensures |Bind(scopes, x, v)| == |scopes|
  {}

  lemma {:induction false} BlockUnfolds(w: World, fuel: nat, ds: Decls, live: seq<Local>, depth: nat, at: nat, k: nat,
      loop: Loop, st: Store)
    ensures Exec(w, fuel, Block(ds), st) ==
            LeaveScope(ExecDecls(w, fuel, ds, Enter(st)))
    ensures GenStmt(Block(ds), live, depth, at, k, loop) ==
            var a := GenDecls(ds, live, depth + 1, at, k, loop);
            Out(Join(a.code, Pops(Deeper(a.locals, depth))), a.consts, a.ok, a.tidy)
  {
    hide Evaluate, GenExpr, GenDecls, GenCases, ExecDecls, Join, Size, Pops, Deeper, WhileOut, DoOut, IterOut, UsingOut, BranchOut, PatchBreaks, Back, Holds, GenOpt, Chosen, IsFalse, Falsy, Op, LoopExit, LeaveScope, GenStmt, UnaryOut;
    GenBlock(ds, live, depth, at, k, loop);
  }

  lemma {:induction false} BlockInPlace(p: Program, at: nat, k: nat, a: Out, m: nat, brk: int)
    requires InPlace(p, at, k, Out(Join(a.code, Pops(m)), a.consts, a.ok, a.tidy), brk)
    ensures InPlace(p, at, k, a, brk) && Has(p, at + Size(a.code), Pops(m)) && Size(Pops(m)) == m
  {
    hide Has, ConstsAt, PatchBreaks, PatchFits, Join, Pops;
    PopsSize(m);
    PatchJoin(a.code, Pops(m), at, brk);
    PatchLeavesAlone(Pops(m), at + Size(a.code), brk);
    HasCat(p, at, PatchBreaks(a.code, at, brk), Pops(m));
  }

  /** Closing a scope pops its locals. */
  lemma {:induction false} CloseRuns(w: World, p: Program, outer: seq<Local>, inner: seq<Local>, at: nat, st: Store)
    requires Describes(inner, st.scopes) && |st.scopes| > 0 && OneScopeMore(outer, inner, |st.scopes| - 1)
    requires Has(p, at, Pops(|inner| - |outer|))
    ensures Describes(outer, Leave(st).scopes)
    ensures Steps(w, p, At(at, inner, st, []), |inner| - |outer|)
         == At(at + |inner| - |outer|, outer, Leave(st), [])
  {
    hide Describes, Slots, Has, Machine.Step, Pops;
    LeaveDescribes(outer, inner, st.scopes);
    var s := At(at, inner, st, []);
    PopsRun(w, p, s, |inner| - |outer|);
    assert Drop(s.stack, |inner| - |outer|) == Slots(inner, st.scopes)[..|outer|] + [];
  }

  lemma {:induction false} EnterReady(live: seq<Local>, depth: nat, st: Store, at: nat)
    requires Describes(live, st.scopes) && |st.scopes| == depth + 1
    ensures Describes(live, Enter(st).scopes) && |Enter(st).scopes| == depth + 2 && OneScopeMore(live, live, depth + 1)
    ensures At(at, live, Enter(st), []) == At(at, live, st, [])
  {
    EnterDescribes(live, st.scopes);
  }

  lemma {:induction false} BlockRuns(w: World, p: Program, fuel: nat, ds: Decls, live: seq<Local>, depth: nat,
      at: nat, k: nat, loop: Loop, brk: int, st: Store) returns (n: nat)
    requires Ready(p, at, k, live, depth, loop, brk, st, GenStmt(Block(ds), live, depth, at, k, loop))
    ensures Ends(w, p, At(at, live, st, []), n, Exec(w, fuel, Block(ds), st), fuel,
      at + Size(GenStmt(Block(ds), live, depth, at, k, loop).code), live, depth, loop, brk)
    decreases fuel, Block(ds), 0
  {
    hide Describes, At, LeftAt, Steps, Exec, GenStmt, Evaluate, GenExpr, Has, Sits, ConstsAt, PatchBreaks, PatchFits, Size, IsFalse, Falsy, Join;
    hide ExecDecls, GenDecls, Deeper, Pops, OneScopeMore, InPlace, LoopOk, Enter;
    BlockUnfolds(w, fuel, ds, live, depth, at, k, loop, st);
    var a := GenDecls(ds, live, depth + 1, at, k, loop);
    var m := Deeper(a.locals, depth);
    EnterReady(live, depth, st, at);
    DeclsLocals(ds, live, depth + 1, at, k, loop, live);
    DeeperCounts(live, a.locals, depth);
    BlockInPlace(p, at, k, Plain(a), m, brk);
    n := DeclsRuns(w, p, fuel, ds, live, live, depth + 1, at, k, loop, brk, Enter(st));
    var o := ExecDecls(w, fuel, ds, Enter(st));
    if o.Normal? {
      CloseRuns(w, p, live, a.locals, at + Size(a.code), o.st);
      StepsAdd(w, p, At(at, live, st, []), n, m);
      n := n + m;
    }
  }

  // ----- using -----

  ghost function PlainCases(o: CasesOut): Out { Out(o.code, o.consts, o.ok, o.tidy) }

  /** Where the switch instruction sends the value `v`. */
  ghost function Target(c: CasesOut, at: nat, base: nat, v: Value): int {
    if v in c.table then base + c.table[v]
    else if c.dfltJump != -1 then base + c.dfltJump
    else at + Size(c.code)
  }

  /** The jump table maps exactly the values some `when` lists. */
  lemma {:induction false} TableMatches(cases: Cases, live: seq<Local>, depth: nat, at: nat, base: nat, k: nat,
      loop: Loop, v: Value)
    requires base <= at
    ensures var c := GenCases(cases, live, depth, at, base, k, loop);
            (v in c.table <==> LastMatch(cases, v).Some?) && (c.dfltJump != -1 <==> DefaultBody(cases).Some?)
    decreases cases
  {
    hide GenStmt, Join, Op16, LabelTable, Lists, Size;
    match cases
    case NoCase =>
    case Default(_) =>
    case When(labels, body, rest) =>
      var b := GenStmt(body, live, depth, at, k, loop);
      TableMatches(rest, live, depth, at + Size(b.code) + 3, base, k + |b.consts|, loop, v);
      LabelsListed(labels, at - base, v);
  }

  lemma {:induction false} LabelsListed(labels: seq<Literal>, offset: nat, v: Value)
    ensures v in LabelTable(labels, offset) <==> Lists(labels, v)
    ensures v in LabelTable(labels, offset) ==> LabelTable(labels, offset)[v] == offset
  {
    if v in LabelTable(labels, offset) {
      var l :| l in labels && LiteralValue(l) == v;
      var i :| 0 <= i < |labels| && labels[i] == l;
    }
  }

  lemma {:induction false} CasesUnfold(cases: Cases, live: seq<Local>, depth: nat, at: nat, base: nat, k: nat, loop: Loop)
    requires base <= at && cases.When?
    ensures GenCases(cases, live, depth, at, base, k, loop) ==
            var b := GenStmt(cases.body, live, depth, at, k, loop);
            var r := GenCases(cases.rest, live, depth, at + Size(b.code) + 3, base, k + |b.consts|, loop);
            CasesOut(Join(b.code, Join(Op16(OP_JUMP, Size(r.code)), r.code)), b.consts + r.consts,
                     b.ok && r.ok && LNil !in cases.labels && Size(r.code) <= MAX_OPERAND, b.tidy && r.tidy,
                     LabelTable(cases.labels, at - base) + r.table, r.dfltJump)
  {
    hide GenStmt, Join, Op16, LabelTable;
  }

  lemma {:induction false} WhenInPlace(p: Program, at: nat, k: nat, b: Out, r: Out, ok: bool, brk: int)
    requires InPlace(p, at, k, Out(Join(b.code, Join(Op16(OP_JUMP, Size(r.code)), r.code)), b.consts + r.consts,
                                   b.ok && r.ok && ok, b.tidy && r.tidy), brk)
    ensures InPlace(p, at, k, b, brk) && Has(p, at + Size(b.code), Op16(OP_JUMP, Size(r.code)))
    ensures InPlace(p, at + Size(b.code) + 3, k + |b.consts|, r, brk)
  {
    hide Has, ConstsAt, PatchBreaks, PatchFits, Join, Short;
    var skip := Op16(OP_JUMP, Size(r.code));
    var tail := Out(Join(skip, r.code), r.consts, r.ok, r.tidy);
    SeqInPlace(p, at, k, b, tail, brk);
    PatchJoin(skip, r.code, at + Size(b.code), brk);
    PatchLeavesAlone(skip, at + Size(b.code), brk);
    HasCat(p, at + Size(b.code), skip, PatchBreaks(r.code, at + Size(b.code) + 3, brk));
  }

  lemma {:induction false} LastCase(cases: Cases, live: seq<Local>, depth: nat, at: nat, base: nat, k: nat, loop: Loop, v: Value)
    requires base <= at
    ensures var c := GenCases(cases, live, depth, at, base, k, loop);
            && (cases.NoCase? ==> Chosen(cases, v).None? && Target(c, at, base, v) == at && Size(c.code) == 0)
            && (cases.Default? ==> Chosen(cases, v) == Some(cases.body) && Target(c, at, base, v) == at
                                   && PlainCases(c) == GenStmt(cases.body, live, depth, at, k, loop) && c.code == PlainCases(c).code)
  {
    hide GenStmt, LabelTable, Join, Op16, Lists;
  }

  /** From the table's target for `v`, the chosen body runs and control reaches the exit. */
  lemma {:induction false} CasesRun(w: World, p: Program, fuel: nat, cases: Cases, live: seq<Local>, depth: nat, at: nat,
      base: nat, k: nat, loop: Loop, brk: int, st: Store, v: Value) returns (n: nat)
    requires base <= at
    requires Ready(p, at, k, live, depth, loop, brk, st, PlainCases(GenCases(cases, live, depth, at, base, k, loop)))
    ensures var c := GenCases(cases, live, depth, at, base, k, loop); var body := Chosen(cases, v);
            && Target(c, at, base, v) >= 0
            && Ends(w, p, At(Target(c, at, base, v), live, st, []), n,
                    if body.Some? then Exec(w, fuel, body.value, st) else Normal(st), fuel,
                    at + Size(c.code), live, depth, loop, brk)
    decreases fuel, cases, 1
  {
    hide Describes, At, LeftAt, Steps, Exec, GenStmt, GenCases, Chosen, Target, Has, ConstsAt, PatchBreaks, PatchFits, InPlace, LoopOk, PlainCases;
    LastCase(cases, live, depth, at, base, k, loop, v);
    match cases
    case NoCase =>
      StepsNone(w, p, At(at, live, st, []));
      n := 0;
    case Default(body) =>
      n := StmtRuns(w, p, fuel, body, live, depth, at, k, loop, brk, st);
    case When(labels, body, rest) =>
      n := WhenRuns(w, p, fuel, labels, body, rest, live, depth, at, base, k, loop, brk, st, v);
  }

  lemma {:induction false} WhenRuns(w: World, p: Program, fuel: nat, labels: seq<Literal>, body: Stmt, rest: Cases,
      live: seq<Local>, depth: nat, at: nat, base: nat, k: nat, loop: Loop, brk: int, st: Store, v: Value) returns (n: nat)
    requires base <= at
    requires Ready(p, at, k, live, depth, loop, brk, st,
                   PlainCases(GenCases(When(labels, body, rest), live, depth, at, base, k, loop)))
    ensures var c := GenCases(When(labels, body, rest), live, depth, at, base, k, loop);
            var chosen := Chosen(When(labels, body, rest), v);
            && Target(c, at, base, v) >= 0
            && Ends(w, p, At(Target(c, at, base, v), live, st, []), n,
                    if chosen.Some? then Exec(w, fuel, chosen.value, st) else Normal(st), fuel,
                    at + Size(c.code), live, depth, loop, brk)
    decreases fuel, When(labels, body, rest), 0
  {
    hide Describes, At, LeftAt, Steps, Exec, GenStmt, GenCases, Has, ConstsAt, PatchBreaks, PatchFits, InPlace, LoopOk, LabelTable, Lists, Size;
    var cases := When(labels, body, rest);
    CasesUnfold(cases, live, depth, at, base, k, loop);
    LabelsListed(labels, at - base, v);
    var b := GenStmt(body, live, depth, at, k, loop);
    var at1 := at + Size(b.code) + 3;
    var r := GenCases(rest, live, depth, at1, base, k + |b.consts|, loop);
    TableMatches(rest, live, depth, at1, base, k + |b.consts|, loop, v);
    WhenInPlace(p, at, k, b, PlainCases(r), LNil !in labels && Size(r.code) <= MAX_OPERAND, brk);
    CodeFits(p, at, k, PlainCases(GenCases(cases, live, depth, at, base, k, loop)), brk);
    if v !in r.table && Lists(labels, v) {
      n := StmtRuns(w, p, fuel, body, live, depth, at, k, loop, brk, st);
      var o := Exec(w, fuel, body, st);
      if o.Normal? {
        JumpRuns(w, p, live, at + Size(b.code), o.st, [], Size(r.code));
        StepsAdd(w, p, At(at, live, st, []), n, 1);
        n := n + 1;
      }
    } else {
      n := CasesRun(w, p, fuel, rest, live, depth, at1, base, k + |b.consts|, loop, brk, st, v);
    }
  }

  lemma {:induction false} CodeFits(p: Program, at: nat, k: nat, o: Out, brk: int)
    requires InPlace(p, at, k, o, brk)
    ensures o.ok
  {}

  lemma {:induction false} UsingInPlace(p: Program, at: nat, k: nat, a: Out, c: CasesOut, brk: int)
    requires InPlace(p, at, k, UsingOut(a, c, k), brk) && NoBreaks(a.code) && a.tidy
    ensures var sw := k + |a.consts| + |c.consts|; var base := at + Size(a.code) + 3;
            && Sits(p, at, k, a) && sw < MAX_OPERAND && Has(p, base - 3, Op16(OP_SWITCH, sw))
            && InPlace(p, base, k + |a.consts|, PlainCases(c), brk)
            && sw < |p.consts| && p.consts[sw] == Switch(c.table, c.dfltJump, Size(c.code))
  {
    hide Has, PatchBreaks, PatchFits, Join, Short;
    var sw := k + |a.consts| + |c.consts|;
    var entry := [Switch(c.table, c.dfltJump, Size(c.code))];
    var tail := Out(Join(Op16(OP_SWITCH, sw), c.code), c.consts + entry, c.ok, c.tidy);
    assert a.consts + c.consts + entry == a.consts + (c.consts + entry);
    SeqInPlace(p, at, k, a, tail, brk);
    QuietInPlace(p, at, k, a, brk);
    ConstsSplit(p.consts, k + |a.consts|, c.consts, entry);
    assert p.consts[sw + 0] == entry[0];
    PatchJoin(Op16(OP_SWITCH, sw), c.code, at + Size(a.code), brk);
    PatchLeavesAlone(Op16(OP_SWITCH, sw), at + Size(a.code), brk);
    HasCat(p, at + Size(a.code), Op16(OP_SWITCH, sw), PatchBreaks(c.code, at + Size(a.code) + 3, brk));
  }

  lemma {:induction false} SwitchStep(w: World, p: Program, live: seq<Local>, at: nat, st: Store, v: Value, sw: nat, c: CasesOut)
    requires Describes(live, st.scopes) && Has(p, at, Op16(OP_SWITCH, sw)) && sw < 65536
    requires sw < |p.consts| && p.consts[sw] == Switch(c.table, c.dfltJump, Size(c.code))
    requires Target(c, at + 3, at + 3, v) >= 0
    ensures Steps(w, p, At(at, live, st, [] + [v]), 1) == At(Target(c, at + 3, at + 3, v), live, st, [])
  {
    hide Describes, Slots, Size;
    var s := At(at, live, st, [] + [v]);
    StepArg(w, p, s, OP_SWITCH, sw);
    assert Peek(s.stack, 0) == v;
    assert Drop(s.stack, 1) == Slots(live, st.scopes) + [];
  }

  lemma {:induction false} UsingUnfolds(w: World, fuel: nat, e: Expr, cases: Cases, live: seq<Local>, depth: nat, at: nat, k: nat,
      loop: Loop, st: Store)
    ensures Exec(w, fuel, Using(e, cases), st) ==
            var r := Evaluate(w, e, st); if r.Raised? then Failed(r.st) else
            var body := Chosen(cases, r.v);
            if body.Some? then Exec(w, fuel, body.value, r.st) else Normal(r.st)
    ensures GenStmt(Using(e, cases), live, depth, at, k, loop) ==
            var a := GenExpr(e, live, k); var base := at + Size(a.code) + 3;
            UsingOut(a, GenCases(cases, live, depth, base, base, k + |a.consts|, loop), k)
  {
    hide Evaluate, GenExpr, GenDecls, GenCases, ExecDecls, Join, Size, Pops, Deeper, WhileOut, DoOut, IterOut, UsingOut, BranchOut, PatchBreaks, Back, Holds, GenOpt, Chosen, IsFalse, Falsy, Op, LoopExit, LeaveScope, GenStmt, UnaryOut;
    GenUsing(e, cases, live, depth, at, k, loop);
  }

  lemma {:induction false} UsingRuns(w: World, p: Program, fuel: nat, e: Expr, cases: Cases, live: seq<Local>, depth: nat,
      at: nat, k: nat, loop: Loop, brk: int, st: Store) returns (n: nat)
    requires Ready(p, at, k, live, depth, loop, brk, st, GenStmt(Using(e, cases), live, depth, at, k, loop))
    ensures Ends(w, p, At(at, live, st, []), n, Exec(w, fuel, Using(e, cases), st), fuel,
      at + Size(GenStmt(Using(e, cases), live, depth, at, k, loop).code), live, depth, loop, brk)
    decreases fuel, Using(e, cases), 0
  {
    hide Describes, At, LeftAt, Steps, Exec, GenStmt, Evaluate, GenExpr, Has, Sits, ConstsAt, PatchBreaks, PatchFits, Size, IsFalse, Falsy, Join;
    hide GenCases, Chosen, Target, UsingOut, InPlace, LoopOk;
    UsingUnfolds(w, fuel, e, cases, live, depth, at, k, loop, st);
    var a := GenExpr(e, live, k);
    var base := at + Size(a.code) + 3;
    var c := GenCases(cases, live, depth, base, base, k + |a.consts|, loop);
    UsingInPlace(p, at, k, a, c, brk);
    UsingSize(a, c, k);
    var s := At(at, live, st, []);
    n := ExprRuns(w, p, e, live, live, k, at, st, []);
    var r := Evaluate(w, e, st);
    if r.Got? {
      var n1 := CasesRun(w, p, fuel, cases, live, depth, base, base, k + |a.consts|, loop, brk, r.st, r.v);
      SwitchStep(w, p, live, base - 3, r.st, r.v, k + |a.consts| + |c.consts|, c);
      StepsAdd(w, p, s, n, 1);
      var body := Chosen(cases, r.v);
      EndsAfter(w, p, s, n + 1, n1, if body.Some? then Exec(w, fuel, body.value, r.st) else Normal(r.st), fuel,
        base + Size(c.code), live, depth, loop, brk);
      n := n + 1 + n1;
    }
  }

  lemma {:induction false} UsingSize(a: Out, c: CasesOut, k: nat)
    ensures Size(UsingOut(a, c, k).code) == Size(a.code) + 3 + Size(c.code)
  {}
}
