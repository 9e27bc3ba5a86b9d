/** Static stack heights: every instruction of an accepted function is reached with one height
    of the stack, whatever path leads to it, and no path leads between instructions. */
module Heights {
  import opened Basics
  import opened Values
  import opened Bytecode
  import opened Syntax
  import opened Codegen
  import opened Machine
  import opened CodeShape
  import opened ExprCorrectness
  import opened StmtCorrectness
  import opened CompilerCorrectness

  /** A place in the code and the number of values on the stack there. */
  datatype Spot = Spot(ip: nat, height: nat)

  // ----- what one instruction does to the height -----

  function NextOp(op: byte, q: nat, h: nat): Option<set<Spot>> {
    if IsPush(op) then Some({Spot(q + 1, h + 1)})
    else if h == 0 then None
    else if op == OP_POP || op == OP_ECHO then Some({Spot(q + 1, h - 1)})
    else if op == OP_RETURN then Some({})
    else if IsUnary(op) then Some({Spot(q + 1, h)})
    else if IsBinary(op) && h > 1 then Some({Spot(q + 1, h - 1)})
    else None
  }

  predicate IsName(p: Program, n: nat) {
    n < |p.consts| && p.consts[n].Val? && p.consts[n].v.Str?
  }

  /** Where a jump table may lead, counted from the instruction after the switch. */
  function Targets(sw: Const): set<int>
    requires sw.Switch?
  {
    sw.table.Values + {if sw.defaultJump != -1 then sw.defaultJump else sw.exitJump}
  }

  function NextOp16(p: Program, op: byte, n: nat, q: nat, h: nat): Option<set<Spot>> {
    var next := q + 3;
    if op == OP_CONSTANT then
      if n < |p.consts| && p.consts[n].Val? then Some({Spot(next, h + 1)}) else None
    else if op == OP_GET_LOCAL then if n < h then Some({Spot(next, h + 1)}) else None
    else if op == OP_GET_GLOBAL then if IsName(p, n) then Some({Spot(next, h + 1)}) else None
    else if op == OP_JUMP then Some({Spot(next + n, h)})
    else if op == OP_LOOP then if n <= next then Some({Spot(next - n, h)}) else None
    else if h == 0 then None
    else if op == OP_JUMP_IF_FALSE then Some({Spot(next, h), Spot(next + n, h)})
    else if op == OP_SET_LOCAL then if n < h then Some({Spot(next, h)}) else None
    else if op == OP_SET_GLOBAL then if IsName(p, n) then Some({Spot(next, h)}) else None
    else if op == OP_SWITCH then
      if n < |p.consts| && p.consts[n].Switch? && forall j :: j in Targets(p.consts[n]) ==> j >= 0 then
        Some(set j | j in Targets(p.consts[n]) && j >= 0 :: Spot(next + j, h - 1))
      else None
    else None
  }

  /** Everywhere the instruction at byte `q` may lead from a stack of height `h`, judged from
      the code alone; `None` if it could read outside the code, the stack or the constants. */
  function Next(p: Program, q: nat, h: nat): Option<set<Spot>> {
    if q >= |p.code| then None
    else if !HasOperand(p.code[q]) then NextOp(p.code[q], q, h)
    else if q + 2 >= |p.code| then None
    else NextOp16(p, p.code[q], ReadShort(p.code, q + 1), q, h)
  }

  ghost predicate Among(s: State, allowed: set<Spot>) {
    match s
    case Running(ip, stack, _, _) => Spot(ip, |stack|) in allowed
    case Stuck => false
    case _ => true
  }

  lemma {:induction false} StepOpSafe(w: World, op: byte, s: State)
    requires s.Running? && NextOp(op, s.ip, |s.stack|).Some?
    ensures Among(StepOp(w, op, s), NextOp(op, s.ip, |s.stack|).value)
  {
    hide BinaryOp, UnaryOp;
  }

  lemma {:induction false} StepOp16Safe(w: World, p: Program, op: byte, n: nat, s: State)
    requires s.Running? && NextOp16(p, op, n, s.ip, |s.stack|).Some?
    ensures Among(StepOp16(w, p, op, n, s), NextOp16(p, op, n, s.ip, |s.stack|).value)
  {
    hide IsFalse, Targets;
    if op == OP_SWITCH && |s.stack| > 0 { SwitchSafe(w, p, n, s); }
  }

  lemma {:induction false} SwitchSafe(w: World, p: Program, n: nat, s: State)
    requires s.Running? && NextOp16(p, OP_SWITCH, n, s.ip, |s.stack|).Some?
    ensures Among(StepOp16(w, p, OP_SWITCH, n, s), NextOp16(p, OP_SWITCH, n, s.ip, |s.stack|).value)
  {
    var sw, v := p.consts[n], Peek(s.stack, 0);
    var jump := if v in sw.table then sw.table[v]
                else if sw.defaultJump != -1 then sw.defaultJump else sw.exitJump;
    if v in sw.table { assert sw.table[v] in sw.table.Values; }
    else { assert jump in Targets(sw); }
    assert jump in Targets(sw);
  }

  /** The static successors cover every step the machine can take. */
  lemma {:induction false} StepSafe(w: World, p: Program, s: State)
    requires s.Running? && Next(p, s.ip, |s.stack|).Some?
    ensures Among(Machine.Step(w, p, s), Next(p, s.ip, |s.stack|).value)
  {
    hide StepOp, StepOp16, NextOp, NextOp16, Among;
    var op := p.code[s.ip];
    if !HasOperand(op) { StepOpSafe(w, op, s); }
    else { StepOp16Safe(w, p, op, ReadShort(p.code, s.ip + 1), s); }
  }

  // ----- fragments of code -----

  /** Where the instructions of `c` begin. */
  ghost function Starts(c: Code, at: nat): set<nat>
    decreases c
  {
    match c
    case Nop => {}
    case One(_, _) => {at}
    case Cat(a, b) => Starts(a, at) + Starts(b, at + Size(a))
  }

  lemma {:induction false} StartsInside(c: Code, at: nat)
    ensures forall q :: q in Starts(c, at) ==> at <= q < at + Size(c)
    ensures Size(c) == 0 ==> Starts(c, at) == {}
    ensures Size(c) > 0 ==> at in Starts(c, at)
    decreases c
  {
    if c.Cat? {
      StartsInside(c.fst, at);
      StartsInside(c.snd, at + Size(c.fst));
    }
  }

  ghost predicate Lands(t: Spot, m: map<nat, nat>) { t.ip in m && m[t.ip] == t.height }

  /** Every way on from `q` stays on the map, falls off the end with height `out`, or is one
      of the `exits`. */
  ghost predicate Follows(p: Program, m: map<nat, nat>, q: nat, end: nat, out: int, exits: set<Spot>)
    requires q in m
  {
    var next := Next(p, q, m[q]);
    next.Some? && forall t :: t in next.value ==> Lands(t, m) || (t.ip == end && t.height == out) || t in exits
  }

  /** `m` gives each instruction of `c` its height. */
  ghost predicate Assigns(p: Program, c: Code, at: nat, m: map<nat, nat>, h: nat, entries: set<Spot>, out: int,
                          exits: set<Spot>)
  {
    && m.Keys == Starts(c, at)
    && (if Size(c) == 0 then out == h else Lands(Spot(at, h), m))
    && (forall t :: t in entries ==> Lands(t, m) || (t.ip == at + Size(c) && t.height == out))
    && (forall q :: q in m ==> Follows(p, m, q, at + Size(c), out, exits))
  }

  /** Entered at its first byte with height `h`, or at one of its `entries` (which may lie at its
      end), the code `c` has one height per instruction and leaves only at its end, with height
      `out`, or by `exits`. */
  ghost predicate Flows(p: Program, c: Code, at: nat, h: nat, entries: set<Spot>, out: int, exits: set<Spot>) {
    exists m :: Assigns(p, c, at, m, h, entries, out, exits)
  }

  lemma {:induction false} NopFlows(p: Program, at: nat, h: nat, exits: set<Spot>)
    ensures Flows(p, Nop, at, h, {}, h, exits)
  {
    assert Assigns(p, Nop, at, map[], h, {}, h, exits);
  }

  /** One instruction: `end` is the byte after it. */
  lemma {:induction false} OneFlows(p: Program, c: Code, at: nat, h: nat, out: int, exits: set<Spot>)
    requires c.One? && Next(p, at, h).Some?
    requires forall t :: t in Next(p, at, h).value ==> (t.ip == at + Size(c) && t.height == out) || t in exits
    ensures Flows(p, c, at, h, {Spot(at, h)}, out, exits)
  {
    hide Next;
    var m := map[at := h];
    assert Follows(p, m, at, at + Size(c), out, exits);
    assert Assigns(p, c, at, m, h, {Spot(at, h)}, out, exits);
  }

  /** Code after code: what leaves the first part goes on to the second or is an exit. */
  lemma {:induction false} CatFlows(p: Program, a: Code, b: Code, at: nat, h: nat, mid: nat, out: int,
      entriesA: set<Spot>, exitsA: set<Spot>, entriesB: set<Spot>, exits: set<Spot>)
    requires Flows(p, a, at, h, entriesA, mid, exitsA)
    requires Flows(p, b, at + Size(a), mid, entriesB, out, exits)
    requires forall t :: t in exitsA ==> t in entriesB || t in exits || (t.ip == at + Size(a) + Size(b) && t.height == out)
    ensures Flows(p, Cat(a, b), at, h, entriesA + entriesB, out, exits)
  {
    hide Assigns, Starts;
    var ma :| Assigns(p, a, at, ma, h, entriesA, mid, exitsA);
    var mb :| Assigns(p, b, at + Size(a), mb, mid, entriesB, out, exits);
    KeysInside(p, a, at, ma, h, entriesA, mid, exitsA);
    KeysInside(p, b, at + Size(a), mb, mid, entriesB, out, exits);
    CatAssigns(p, a, b, at, ma, mb, h, mid, out, entriesA, exitsA, entriesB, exits);
  }

  lemma {:induction false} KeysInside(p: Program, c: Code, at: nat, m: map<nat, nat>, h: nat, entries: set<Spot>, out: int,
      exits: set<Spot>)
    requires Assigns(p, c, at, m, h, entries, out, exits)
    ensures forall q :: q in m ==> at <= q < at + Size(c)
  {
    hide Follows;
    StartsInside(c, at);
  }

  lemma {:induction false} CatFollows(p: Program, ma: map<nat, nat>, mb: map<nat, nat>, q: nat, mid: Spot, end: nat, out: int,
      exitsA: set<Spot>, exits: set<Spot>)
    requires q in ma && ma.Keys !! mb.Keys && Follows(p, ma, q, mid.ip, mid.height, exitsA)
    requires forall t :: t in exitsA || t == mid ==> Lands(t, mb) || t in exits || (t.ip == end && t.height == out)
    ensures Follows(p, ma + mb, q, end, out, exits)
  {
    hide Next;
    assert forall t :: Lands(t, ma) || Lands(t, mb) ==> Lands(t, ma + mb);
  }

  lemma {:induction false} CatAssigns(p: Program, a: Code, b: Code, at: nat, ma: map<nat, nat>, mb: map<nat, nat>,
      h: nat, mid: nat, out: int, entriesA: set<Spot>, exitsA: set<Spot>, entriesB: set<Spot>, exits: set<Spot>)
    requires Assigns(p, a, at, ma, h, entriesA, mid, exitsA)
    requires Assigns(p, b, at + Size(a), mb, mid, entriesB, out, exits)
    requires ma.Keys !! mb.Keys
    requires forall t :: t in exitsA ==> t in entriesB || t in exits || (t.ip == at + Size(a) + Size(b) && t.height == out)
    ensures Assigns(p, Cat(a, b), at, ma + mb, h, entriesA + entriesB, out, exits)
  {
    hide Next;
    var m := ma + mb;
    var end := at + Size(a) + Size(b);
    forall q | q in m ensures Follows(p, m, q, end, out, exits) {
      hide Starts;
      if q in mb {
        assert Follows(p, mb, q, end, out, exits);
        assert forall t :: Lands(t, mb) ==> Lands(t, m);
      } else {
        CatFollows(p, ma, mb, q, Spot(at + Size(a), mid), end, out, exitsA, exits);
      }
    }
  }

  /** A jump back into the code is no exit. */
  lemma {:induction false} LoopFlows(p: Program, c: Code, at: nat, h: nat, entries: set<Spot>, out: int,
      exits: set<Spot>, wider: set<Spot>)
    requires Flows(p, c, at, h, entries, out, wider) && Size(c) > 0
    requires forall t :: t in wider ==> t in exits || t in entries || t == Spot(at, h) || (t.ip == at + Size(c) && t.height == out)
    ensures Flows(p, c, at, h, entries + {Spot(at, h)}, out, exits)
  {
    hide Next, Starts;
    var m :| Assigns(p, c, at, m, h, entries, out, wider);
    forall q | q in m ensures Follows(p, m, q, at + Size(c), out, exits) {
      assert Follows(p, m, q, at + Size(c), out, wider);
    }
    assert Assigns(p, c, at, m, h, entries + {Spot(at, h)}, out, exits);
  }

  /** Fewer entries and more exits. */
  lemma {:induction false} FlowsWider(p: Program, c: Code, at: nat, h: nat, entries: set<Spot>, out: int,
      exits: set<Spot>, fewer: set<Spot>, wider: set<Spot>)
    requires Flows(p, c, at, h, entries, out, exits)
    requires fewer <= entries && exits <= wider
    ensures Flows(p, c, at, h, fewer, out, wider)
  {
    hide Next, Starts;
    var m :| Assigns(p, c, at, m, h, entries, out, exits);
    forall q | q in m ensures Follows(p, m, q, at + Size(c), out, wider) {
      assert Follows(p, m, q, at + Size(c), out, exits);
    }
    assert Assigns(p, c, at, m, h, fewer, out, wider);
  }

  /** The two ends of a fragment are entries of it. */
  lemma {:induction false} EdgesFlow(p: Program, c: Code, at: nat, h: nat, entries: set<Spot>, out: nat, exits: set<Spot>)
    requires Flows(p, c, at, h, entries, out, exits)
    ensures Flows(p, c, at, h, {Spot(at, h), Spot(at + Size(c), out)} + entries, out, exits)
  {
    hide Follows, Starts;
    var m :| Assigns(p, c, at, m, h, entries, out, exits);
    assert Assigns(p, c, at, m, h, {Spot(at, h), Spot(at + Size(c), out)} + entries, out, exits);
  }

  // ----- expressions -----

  /** Code entered only at its beginning and left only at its end. */
  ghost predicate Straight(p: Program, c: Code, at: nat, h: nat, out: int) { Flows(p, c, at, h, {}, out, {}) }

  lemma {:induction false} StraightCat(p: Program, a: Code, b: Code, at: nat, h: nat, mid: nat, out: int)
    requires Straight(p, a, at, h, mid) && Straight(p, b, at + Size(a), mid, out)
    ensures Straight(p, Join(a, b), at, h, out)
  {
    hide Flows;
    CatFlows(p, a, b, at, h, mid, out, {}, {}, {}, {});
    var none: set<Spot> := {};
    assert none + none == none;
  }

  lemma {:induction false} PlainNext(p: Program, op: byte, at: nat, h: nat)
    requires Has(p, at, Op(op)) && !HasOperand(op)
    ensures Next(p, at, h) == NextOp(op, at, h)
  {
    hide NextOp;
  }

  lemma {:induction false} ArgNext(p: Program, op: byte, n: nat, at: nat, h: nat)
    requires Has(p, at, Op16(op, n)) && HasOperand(op) && n < 65536
    ensures Next(p, at, h) == NextOp16(p, op, n, at, h)
  {
    hide NextOp16;
    OperandAt(p.code, at, op, n);
  }

  lemma {:induction false} PlainFlows(p: Program, op: byte, at: nat, h: nat, out: nat)
    requires Has(p, at, Op(op)) && !HasOperand(op) && NextOp(op, at, h) == Some({Spot(at + 1, out)})
    ensures Straight(p, Op(op), at, h, out) && Flows(p, Op(op), at, h, {Spot(at, h)}, out, {})
  {
    hide Next, NextOp, Flows, Has;
    PlainNext(p, op, at, h);
    OneFlows(p, Op(op), at, h, out, {});
    FlowsWider(p, Op(op), at, h, {Spot(at, h)}, out, {}, {}, {});
  }

  lemma {:induction false} ArgFlows(p: Program, op: byte, n: nat, at: nat, h: nat, out: nat)
    requires Has(p, at, Op16(op, n)) && HasOperand(op) && n < 65536
    requires NextOp16(p, op, n, at, h) == Some({Spot(at + 3, out)})
    ensures Straight(p, Op16(op, n), at, h, out)
  {
    hide Next, NextOp16, Flows, Has, Short;
    ArgNext(p, op, n, at, h);
    OneFlows(p, Op16(op, n), at, h, out, {});
    FlowsWider(p, Op16(op, n), at, h, {Spot(at, h)}, out, {}, {}, {});
  }

  lemma {:induction false} PopFlows(p: Program, at: nat, h: nat)
    requires Has(p, at, Op(OP_POP))
    ensures Straight(p, Op(OP_POP), at, h + 1, h) && Flows(p, Op(OP_POP), at, h + 1, {Spot(at, h + 1)}, h, {})
  {
    hide Flows, Has;
    PlainFlows(p, OP_POP, at, h + 1, h);
  }

  lemma {:induction false} JumpFlows(p: Program, n: nat, at: nat, h: nat, out: int)
    requires Has(p, at, Op16(OP_JUMP, n)) && n < 65536
    ensures Flows(p, Op16(OP_JUMP, n), at, h, {Spot(at, h)}, out, {Spot(at + 3 + n, h)})
  {
    hide Next, Flows, Has, Short;
    ArgNext(p, OP_JUMP, n, at, h);
    OneFlows(p, Op16(OP_JUMP, n), at, h, out, {Spot(at + 3 + n, h)});
  }

  lemma {:induction false} TestFlows(p: Program, n: nat, at: nat, h: nat)
    requires Has(p, at, Op16(OP_JUMP_IF_FALSE, n)) && n < 65536
    ensures Flows(p, Op16(OP_JUMP_IF_FALSE, n), at, h + 1, {}, h + 1, {Spot(at + 3 + n, h + 1)})
  {
    hide Next, Flows, Has, Short;
    ArgNext(p, OP_JUMP_IF_FALSE, n, at, h + 1);
    OneFlows(p, Op16(OP_JUMP_IF_FALSE, n), at, h + 1, h + 1, {Spot(at + 3 + n, h + 1)});
    FlowsWider(p, Op16(OP_JUMP_IF_FALSE, n), at, h + 1, {Spot(at, h + 1)}, h + 1, {Spot(at + 3 + n, h + 1)},
      {}, {Spot(at + 3 + n, h + 1)});
  }

  lemma {:induction false} BackFlows(p: Program, at: nat, start: nat, h: nat, out: int)
    requires Has(p, at, Back(at, start)) && BackFits(at, start)
    ensures Flows(p, Back(at, start), at, h, {Spot(at, h)}, out, {Spot(start, h)})
  {
    hide Next, Flows, Has, Short;
    ArgNext(p, OP_LOOP, at + 3 - start, at, h);
    OneFlows(p, Back(at, start), at, h, out, {Spot(start, h)});
  }

  /** The named local, if any, is in a slot the stack holds. */
  lemma {:induction false} PlaceInside(listed: seq<Local>, live: seq<Local>, x: string, k: nat)
    requires Extends(listed, live) && PlaceOf(listed, x, k).ok
    ensures var pl := PlaceOf(listed, x, k);
            if pl.local then pl.arg < |live| else pl.arg == k < MAX_OPERAND && pl.consts == [Val(Str(x))]
  {
    hide Resolve;
  }

  lemma {:induction false} GetFlows(p: Program, listed: seq<Local>, live: seq<Local>, x: string, k: nat, at: nat, h: nat)
    requires Extends(listed, live) && |live| <= h && |live| <= MAX_LOCALS
    requires var pl := PlaceOf(listed, x, k); pl.ok && Has(p, at, Get(pl)) && ConstsAt(p.consts, k, pl.consts)
    ensures Straight(p, Get(PlaceOf(listed, x, k)), at, h, h + 1)
  {
    hide Flows, Has, PlaceOf, Extends, Short;
    var pl := PlaceOf(listed, x, k);
    PlaceInside(listed, live, x, k);
    if !pl.local { assert p.consts[k + 0] == pl.consts[0]; }
    ArgFlows(p, if pl.local then OP_GET_LOCAL else OP_GET_GLOBAL, pl.arg, at, h, h + 1);
  }

  lemma {:induction false} SetFlows(p: Program, listed: seq<Local>, live: seq<Local>, x: string, k: nat, at: nat, h: nat)
    requires Extends(listed, live) && |live| <= h && |live| <= MAX_LOCALS
    requires var pl := PlaceOf(listed, x, k); pl.ok && Has(p, at, Set(pl)) && ConstsAt(p.consts, k, pl.consts)
    ensures Straight(p, Set(PlaceOf(listed, x, k)), at, h + 1, h + 1)
  {
    hide Flows, Has, PlaceOf, Extends, Short;
    var pl := PlaceOf(listed, x, k);
    PlaceInside(listed, live, x, k);
    if !pl.local { assert p.consts[k + 0] == pl.consts[0]; }
    ArgFlows(p, if pl.local then OP_SET_LOCAL else OP_SET_GLOBAL, pl.arg, at, h + 1, h + 1);
  }

  lemma {:induction false} BinFlows(p: Program, op: BinOp, at: nat, h: nat)
    requires Has(p, at, BinCode(op))
    ensures Straight(p, BinCode(op), at, h + 2, h + 1)
  {
    hide Straight, Has, BinCode, Leading, NextOp;
    var first := Leading(op);
    BinParts(op);
    BinNext(first, at, h);
    if BinCode(op).Cat? {
      HasCat(p, at, Op(first), Op(OP_NOT));
      PlainFlows(p, first, at, h + 2, h + 1);
      NotFlows(p, at + 1, h);
      StraightCat(p, Op(first), Op(OP_NOT), at, h + 2, h + 1, h + 1);
    } else {
      PlainFlows(p, first, at, h + 2, h + 1);
    }
  }

  lemma {:induction false} BinParts(op: BinOp)
    ensures var c := BinCode(op);
            IsBinary(Leading(op)) && c == (if c.Cat? then Cat(Op(Leading(op)), Op(OP_NOT)) else Op(Leading(op)))
  {}

  lemma {:induction false} BinNext(op: byte, at: nat, h: nat)
    requires IsBinary(op)
    ensures !HasOperand(op) && NextOp(op, at, h + 2) == Some({Spot(at + 1, h + 1)})
  {}

  lemma {:induction false} NotFlows(p: Program, at: nat, h: nat)
    requires Has(p, at, Op(OP_NOT))
    ensures Straight(p, Op(OP_NOT), at, h + 1, h + 1)
  {
    hide Flows, Has;
    PlainFlows(p, OP_NOT, at, h + 1, h + 1);
  }

  lemma {:induction false} UnFlows(p: Program, op: UnOp, at: nat, h: nat)
    requires Has(p, at, UnCode(op))
    ensures Straight(p, UnCode(op), at, h + 1, h + 1)
  {
    hide Flows, Has;
    if op.UPlus? { NopFlows(p, at, h + 1, {}); }
    else { PlainFlows(p, UnCode(op).op, at, h + 1, h + 1); }
  }

  lemma {:induction false} LitFlows(p: Program, l: Literal, k: nat, at: nat, h: nat)
    requires Sits(p, at, k, GenLit(l, k))
    ensures Straight(p, GenLit(l, k).code, at, h, h + 1)
  {
    hide Straight, Has;
    var o := GenLit(l, k);
    if o.code.op == OP_CONSTANT {
      assert p.consts[k + 0] == o.consts[0];
      ArgFlows(p, OP_CONSTANT, k, at, h, h + 1);
    } else {
      PlainFlows(p, o.code.op, at, h, h + 1);
    }
  }

  lemma {:induction false} AndFlows(p: Program, a: Code, b: Code, at: nat, h: nat)
    requires 1 + Size(b) < 65536
    requires var at1 := at + Size(a);
             && Straight(p, a, at, h, h + 1) && Has(p, at1, Op16(OP_JUMP_IF_FALSE, 1 + Size(b)))
             && Has(p, at1 + 3, Op(OP_POP)) && Straight(p, b, at1 + 4, h, h + 1)
    ensures Straight(p, AndCode(a, b), at, h, h + 1)
  {
    hide Flows, Has, Op, Op16, Short;
    var at1 := at + Size(a);
    var test := Op16(OP_JUMP_IF_FALSE, 1 + Size(b));
    PopFlows(p, at1 + 3, h);
    StraightCat(p, Op(OP_POP), b, at1 + 3, h + 1, h, h + 1);
    TestFlows(p, 1 + Size(b), at1, h);
    CatFlows(p, test, Join(Op(OP_POP), b), at1, h + 1, h + 1, h + 1, {}, {Spot(at1 + 4 + Size(b), h + 1)}, {}, {});
    var none: set<Spot> := {};
    assert none + none == none;
    StraightCat(p, a, Join(test, Join(Op(OP_POP), b)), at, h, h + 1, h + 1);
  }

  lemma {:induction false} OrFlows(p: Program, a: Code, b: Code, at: nat, h: nat)
    requires 1 + Size(b) < 65536
    requires var at1 := at + Size(a);
             && Straight(p, a, at, h, h + 1) && Has(p, at1, Op16(OP_JUMP_IF_FALSE, 3))
             && Has(p, at1 + 3, Op16(OP_JUMP, 1 + Size(b)))
             && Has(p, at1 + 6, Op(OP_POP)) && Straight(p, b, at1 + 7, h, h + 1)
    ensures Straight(p, OrCode(a, b), at, h, h + 1)
  {
    hide Flows, Has, Op, Op16, Short;
    var at1 := at + Size(a);
    var test, skip, arm := Op16(OP_JUMP_IF_FALSE, 3), Op16(OP_JUMP, 1 + Size(b)), Join(Op(OP_POP), b);
    var pop := Spot(at1 + 6, h + 1);
    PopFlows(p, at1 + 6, h);
    CatFlows(p, Op(OP_POP), b, at1 + 6, h + 1, h, h + 1, {pop}, {}, {}, {});
    assert {pop} + {} == {pop};
    SkipFlows(p, skip, arm, at1 + 3, h + 1, h + 1, {pop}, {});
    TestFlows(p, 3, at1, h);
    CatFlows(p, test, Join(skip, arm), at1, h + 1, h + 1, h + 1, {}, {pop}, {pop}, {});
    FlowsWider(p, Join(test, Join(skip, arm)), at1, h + 1, {} + {pop}, h + 1, {}, {}, {});
    StraightCat(p, a, Join(test, Join(skip, arm)), at, h, h + 1, h + 1);
  }

  /** A jump over the code that follows it. */
  lemma {:induction false} SkipFlows(p: Program, skip: Code, c: Code, at: nat, h: nat, within: nat, entries: set<Spot>, exits: set<Spot>)
    requires Size(c) < 65536 && skip == Op16(OP_JUMP, Size(c)) && Has(p, at, skip)
    requires Flows(p, c, at + 3, within, entries, h, exits)
    ensures Flows(p, Join(skip, c), at, h, entries, h, exits)
  {
    hide Flows, Has, Short;
    var end := Spot(at + 3 + Size(c), h);
    JumpFlows(p, Size(c), at, h, within);
    CatFlows(p, skip, c, at, h, within, h, {Spot(at, h)}, {end}, entries, exits);
    FlowsWider(p, Join(skip, c), at, h, {Spot(at, h)} + entries, h, exits, entries, exits);
  }

  /** Both arms of a choice start from the same height and must end with the same height. */
  lemma {:induction false} BranchFlows(p: Program, a: Code, t: Code, f: Code, at: nat, h: nat, inT: set<Spot>, inF: set<Spot>,
      out: nat, exits: set<Spot>)
    requires BranchFits(t, f)
    requires var at1 := at + Size(a); var at2 := at1 + 4 + Size(t);
             && Straight(p, a, at, h, h + 1) && Has(p, at1, Op16(OP_JUMP_IF_FALSE, 4 + Size(t)))
             && Has(p, at1 + 3, Op(OP_POP)) && Flows(p, t, at1 + 4, h, inT, out, exits)
             && Has(p, at2, Op16(OP_JUMP, 1 + Size(f))) && Has(p, at2 + 3, Op(OP_POP))
             && Flows(p, f, at2 + 4, h, inF, out, exits)
    ensures Flows(p, Branch(a, t, f), at, h, inT + inF, out, exits)
  {
    hide Flows, Has, Op, Op16, Short;
    var at1 := at + Size(a);
    var at2 := at1 + 4 + Size(t);
    var test, skip := Op16(OP_JUMP_IF_FALSE, 4 + Size(t)), Op16(OP_JUMP, 1 + Size(f));
    var arm := Join(Op(OP_POP), f);
    var pop := Spot(at2 + 3, h + 1);
    PopFlows(p, at2 + 3, h);
    CatFlows(p, Op(OP_POP), f, at2 + 3, h + 1, h, out, {pop}, {}, inF, exits);
    SkipFlows(p, skip, arm, at2, out, h + 1, {pop} + inF, exits);
    CatFlows(p, t, Join(skip, arm), at1 + 4, h, out, out, inT, exits, {pop} + inF, exits);
    var ins := inT + ({pop} + inF);
    PopFlows(p, at1 + 3, h);
    CatFlows(p, Op(OP_POP), Join(t, Join(skip, arm)), at1 + 3, h + 1, h, out, {}, {}, ins, exits);
    TestFlows(p, 4 + Size(t), at1, h);
    CatFlows(p, test, Join(Op(OP_POP), Join(t, Join(skip, arm))), at1, h + 1, h + 1, out, {}, {pop}, {} + ins, exits);
    CatFlows(p, a, Join(test, Join(Op(OP_POP), Join(t, Join(skip, arm)))), at, h, h + 1, out, {}, {}, {} + ({} + ins), exits);
    FlowsWider(p, Branch(a, t, f), at, h, {} + ({} + ({} + ins)), out, exits, inT + inF, exits);
  }

  lemma {:induction false} UpdateFlows(p: Program, listed: seq<Local>, live: seq<Local>, x: string, r: Out, op: BinOp,
      k: nat, at: nat, h: nat)
    requires Extends(listed, live) && |live| <= h && |live| <= MAX_LOCALS
    requires Sits(p, at, k, UpdateOut(PlaceOf(listed, x, k), r, BinCode(op)))
    requires Straight(p, r.code, at + 3, h + 1, h + 2)
    ensures Straight(p, UpdateCode(PlaceOf(listed, x, k), r.code, BinCode(op)), at, h, h + 1)
  {
    hide Straight, Has, PlaceOf, BinCode, Extends, Get, Set, ConstsAt;
    var pl := PlaceOf(listed, x, k);
    var c := BinCode(op);
    UpdateSits(p, at, k, pl, r, c);
    PlaceSizes(pl);
    var at1 := at + 3 + Size(r.code);
    GetFlows(p, listed, live, x, k, at, h);
    BinFlows(p, op, at1, h);
    SetFlows(p, listed, live, x, k, at1 + Size(c), h);
    StraightCat(p, c, Set(pl), at1, h + 2, h + 1, h + 1);
    StraightCat(p, r.code, Join(c, Set(pl)), at + 3, h + 1, h + 2, h + 1);
    StraightCat(p, Get(pl), Join(r.code, Join(c, Set(pl))), at, h, h + 1, h + 1);
  }

  lemma {:induction false} PlaceSizes(pl: Place)
    ensures Size(Get(pl)) == 3 && Size(Set(pl)) == 3
  {}

  /** An expression adds exactly one value to the stack, on every path through its code. */
  lemma {:induction false} ExprHeights(p: Program, e: Expr, listed: seq<Local>, live: seq<Local>, k: nat, at: nat, h: nat)
    requires Extends(listed, live) && |live| <= h && |live| <= MAX_LOCALS
    requires Sits(p, at, k, GenExpr(e, listed, k))
    ensures Straight(p, GenExpr(e, listed, k).code, at, h, h + 1)
    decreases e, 1
  {
    hide Straight, Has, GenExpr, PlaceOf, BinCode, UnCode, AndCode, OrCode, Branch, Extends, ConstsAt, Size, UpdateCode, Set;
    match e
    case Lit(l) =>
      GenOfLiteral(l, listed, k);
      LitFlows(p, l, k, at, h);
    case Var(x) =>
      GenVar(x, listed, k);
      GetFlows(p, listed, live, x, k, at, h);
    case Assign(_, _) => StoreHeights(p, e, listed, live, k, at, h);
    case Update(_, _, _) => StoreHeights(p, e, listed, live, k, at, h);
    case Step(_, _) => StoreHeights(p, e, listed, live, k, at, h);
    case Unary(op, a) =>
      GenUnary(op, a, listed, k);
      var r := GenExpr(a, listed, k);
      UnarySits(p, at, k, r, UnCode(op));
      ExprHeights(p, a, listed, live, k, at, h);
      UnFlows(p, op, at + Size(r.code), h);
      StraightCat(p, r.code, UnCode(op), at, h, h + 1, h + 1);
    case Binary(op, l, r) =>
      GenBinary(op, l, r, listed, k);
      var a := GenExpr(l, listed, k);
      var b := GenExpr(r, listed, k + |a.consts|);
      BinarySits(p, at, k, a, b, BinCode(op));
      ExprHeights(p, l, listed, live, k, at, h);
      ExprHeights(p, r, listed, live, k + |a.consts|, at + Size(a.code), h + 1);
      BinFlows(p, op, at + Size(a.code) + Size(b.code), h);
      StraightCat(p, b.code, BinCode(op), at + Size(a.code), h + 1, h + 2, h + 1);
      StraightCat(p, a.code, Join(b.code, BinCode(op)), at, h, h + 1, h + 1);
    case And(_, _) => ChoiceHeights(p, e, listed, live, k, at, h);
    case Or(_, _) => ChoiceHeights(p, e, listed, live, k, at, h);
    case Cond(_, _, _) => ChoiceHeights(p, e, listed, live, k, at, h);
  }

  lemma {:induction false} StoreHeights(p: Program, e: Expr, listed: seq<Local>, live: seq<Local>, k: nat, at: nat, h: nat)
    requires (e.Assign? || e.Update? || e.Step?) && Extends(listed, live) && |live| <= h && |live| <= MAX_LOCALS
    requires Sits(p, at, k, GenExpr(e, listed, k))
    ensures Straight(p, GenExpr(e, listed, k).code, at, h, h + 1)
    decreases e, 0
  {
    hide Straight, Has, GenExpr, PlaceOf, BinCode, UnCode, AndCode, OrCode, Branch, Extends, ConstsAt, Size, UpdateCode, Set;
    match e
    case Assign(x, rhs) =>
      GenAssign(x, rhs, listed, k);
      var pl := PlaceOf(listed, x, k);
      var r := GenExpr(rhs, listed, k + |pl.consts|);
      AssignSits(p, at, k, pl, r);
      ExprHeights(p, rhs, listed, live, k + |pl.consts|, at, h);
      SetFlows(p, listed, live, x, k, at + Size(r.code), h);
      StraightCat(p, r.code, Set(pl), at, h, h + 1, h + 1);
    case Update(x, aop, rhs) =>
      GenUpdate(x, aop, rhs, listed, k);
      var pl := PlaceOf(listed, x, k);
      var r := GenExpr(rhs, listed, k + |pl.consts|);
      UpdateSits(p, at, k, pl, r, BinCode(PlainOp(aop)));
      ExprHeights(p, rhs, listed, live, k + |pl.consts|, at + 3, h + 1);
      UpdateFlows(p, listed, live, x, r, PlainOp(aop), k, at, h);
    case Step(x, up) =>
      GenStep(x, up, listed, k);
      var one := Out(Op(OP_ONE), [], true, true);
      var op := if up then Add else Sub;
      UpdateSits(p, at, k, PlaceOf(listed, x, k), one, BinCode(op));
      PlainFlows(p, OP_ONE, at + 3, h + 1, h + 2);
      UpdateFlows(p, listed, live, x, one, op, k, at, h);
  }

  lemma {:induction false} ChoiceHeights(p: Program, e: Expr, listed: seq<Local>, live: seq<Local>, k: nat, at: nat, h: nat)
    requires (e.And? || e.Or? || e.Cond?) && Extends(listed, live) && |live| <= h && |live| <= MAX_LOCALS
    requires Sits(p, at, k, GenExpr(e, listed, k))
    ensures Straight(p, GenExpr(e, listed, k).code, at, h, h + 1)
    decreases e, 0
  {
    hide Straight, Has, GenExpr, PlaceOf, BinCode, UnCode, AndCode, OrCode, Branch, Extends, ConstsAt, Size, UpdateCode, Set;
    match e
    case And(l, r) =>
      GenAnd(l, r, listed, k);
      var a := GenExpr(l, listed, k);
      var b := GenExpr(r, listed, k + |a.consts|);
      AndSits(p, at, k, a, b);
      ExprHeights(p, l, listed, live, k, at, h);
      ExprHeights(p, r, listed, live, k + |a.consts|, at + Size(a.code) + 4, h);
      AndFlows(p, a.code, b.code, at, h);
    case Or(l, r) =>
      GenOr(l, r, listed, k);
      var a := GenExpr(l, listed, k);
      var b := GenExpr(r, listed, k + |a.consts|);
      OrSits(p, at, k, a, b);
      ExprHeights(p, l, listed, live, k, at, h);
      ExprHeights(p, r, listed, live, k + |a.consts|, at + Size(a.code) + 7, h);
      OrFlows(p, a.code, b.code, at, h);
    case Cond(c, t, f) =>
      GenCond(c, t, f, listed, k);
      var a := GenExpr(c, listed, k);
      var b := GenExpr(t, listed, k + |a.consts|);
      var d := GenExpr(f, listed, k + |a.consts| + |b.consts|);
      BranchSits(p, at, k, a, b, d);
      ExprHeights(p, c, listed, live, k, at, h);
      ExprHeights(p, t, listed, live, k + |a.consts|, at + Size(a.code) + 4, h);
      ExprHeights(p, f, listed, live, k + |a.consts| + |b.consts|, at + Size(a.code) + 8 + Size(b.code), h);
      StraightBranch(p, a.code, b.code, d.code, at, h);
  }

  lemma {:induction false} GenVar(x: string, listed: seq<Local>, k: nat)
    ensures var pl := PlaceOf(listed, x, k); GenExpr(Var(x), listed, k) == Out(Get(pl), pl.consts, pl.ok, true)
  {
    hide PlaceOf;
  }

  lemma {:induction false} StraightBranch(p: Program, a: Code, t: Code, f: Code, at: nat, h: nat)
    requires BranchFits(t, f)
    requires var at1 := at + Size(a); var at2 := at1 + 4 + Size(t);
             && Straight(p, a, at, h, h + 1) && Has(p, at1, Op16(OP_JUMP_IF_FALSE, 4 + Size(t)))
             && Has(p, at1 + 3, Op(OP_POP)) && Straight(p, t, at1 + 4, h, h + 1)
             && Has(p, at2, Op16(OP_JUMP, 1 + Size(f))) && Has(p, at2 + 3, Op(OP_POP))
             && Straight(p, f, at2 + 4, h, h + 1)
    ensures Straight(p, Branch(a, t, f), at, h, h + 1)
  {
    hide Flows, Has, Branch, Size;
    BranchFlows(p, a, t, f, at, h, {}, {}, h + 1, {});
    FlowsWider(p, Branch(a, t, f), at, h, {} + {}, h + 1, {}, {}, {});
  }

  // ----- statements -----

  /** Where `continue` and `break` lead, and the height they must leave. */
  ghost function LoopExits(loop: Loop, brk: int): set<Spot> {
    if loop.start < 0 || brk < 0 then {} else {Spot(loop.start, loop.locals), Spot(brk, loop.locals)}
  }

  /** Statement code `o` in place, with the places `marks` in it: it starts with one slot per
      local and ends with `out` slots. */
  ghost predicate Level(p: Program, o: Out, at: nat, live: seq<Local>, marks: set<Spot>, out: nat, loop: Loop, brk: int) {
    Flows(p, PatchBreaks(o.code, at, brk), at, |live|, marks, out, LoopExits(loop, brk))
  }

  lemma {:induction false} QuietLevel(p: Program, o: Out, at: nat, live: seq<Local>, marks: set<Spot>, out: nat, loop: Loop, brk: int,
      exits: set<Spot>)
    requires NoBreaks(o.code) && Flows(p, o.code, at, |live|, marks, out, exits) && exits <= LoopExits(loop, brk)
    ensures Level(p, o, at, live, marks, out, loop, brk)
  {
    hide Flows, PatchBreaks, PatchFits, LoopExits;
    PatchLeavesAlone(o.code, at, brk);
    FlowsWider(p, o.code, at, |live|, marks, out, exits, marks, LoopExits(loop, brk));
  }

  lemma {:induction false} LevelSeq(p: Program, a: Out, b: Out, o: Out, at: nat, live: seq<Local>, mid: seq<Local>,
      marksA: set<Spot>, marksB: set<Spot>, out: nat, loop: Loop, brk: int)
    requires o.code == Join(a.code, b.code)
    requires Level(p, a, at, live, marksA, |mid|, loop, brk) && Level(p, b, at + Size(a.code), mid, marksB, out, loop, brk)
    ensures Level(p, o, at, live, marksA + marksB, out, loop, brk)
  {
    hide Flows, PatchBreaks, LoopExits;
    var exits := LoopExits(loop, brk);
    PatchJoin(a.code, b.code, at, brk);
    CatFlows(p, PatchBreaks(a.code, at, brk), PatchBreaks(b.code, at + Size(a.code), brk), at, |live|, |mid|, out,
      marksA, exits, marksB, exits);
  }

  /** An expression followed by an instruction that consumes its value. */
  lemma {:induction false} ConsumeFlows(p: Program, a: Code, op: byte, at: nat, h: nat, out: nat)
    requires Straight(p, a, at, h, h + 1) && Has(p, at + Size(a), Op(op))
    requires ((op == OP_POP || op == OP_ECHO) && out == h) || op == OP_RETURN
    ensures Straight(p, Join(a, Op(op)), at, h, out)
  {
    hide Flows, Has;
    if op == OP_RETURN { ReturnFlows(p, at + Size(a), h, out); }
    else { PlainFlows(p, op, at + Size(a), h + 1, h); }
    StraightCat(p, a, Op(op), at, h, h + 1, out);
  }

  /** Nothing follows a return, so any height will do after it. */
  lemma {:induction false} ReturnFlows(p: Program, at: nat, h: nat, out: int)
    requires Has(p, at, Op(OP_RETURN))
    ensures Straight(p, Op(OP_RETURN), at, h + 1, out)
  {
    hide Next, Flows, Has;
    PlainNext(p, OP_RETURN, at, h + 1);
    OneFlows(p, Op(OP_RETURN), at, h + 1, out, {});
    FlowsWider(p, Op(OP_RETURN), at, h + 1, {Spot(at, h + 1)}, out, {}, {}, {});
  }

  lemma {:induction false} PopsFlow(p: Program, n: nat, at: nat, h: nat)
    requires Has(p, at, Pops(n))
    ensures Straight(p, Pops(n), at, h + n, h)
    decreases n
  {
    hide Flows, Has, Size;
    if n == 0 {
      NopFlows(p, at, h, {});
    } else {
      HasCat(p, at, Op(OP_POP), Pops(n - 1));
      PopFlows(p, at, h + n - 1);
      PopsFlow(p, n - 1, at + 1, h);
      StraightCat(p, Op(OP_POP), Pops(n - 1), at, h + n, h + n - 1, h);
    }
  }

  /** The test at the head of a loop: out with the value still there, or on without it. */
  lemma {:induction false} GuardFlows(p: Program, a: Code, n: nat, at: nat, h: nat)
    requires n < 65536 && Straight(p, a, at, h, h + 1)
    requires Has(p, at + Size(a), Op16(OP_JUMP_IF_FALSE, n)) && Has(p, at + Size(a) + 3, Op(OP_POP))
    ensures Flows(p, Join(a, Join(Op16(OP_JUMP_IF_FALSE, n), Op(OP_POP))), at, h, {}, h, {Spot(at + Size(a) + 3 + n, h + 1)})
  {
    hide Flows, Has, Op, Op16;
    var out := Spot(at + Size(a) + 3 + n, h + 1);
    var test := Op16(OP_JUMP_IF_FALSE, n);
    var none: set<Spot> := {};
    assert none + none == none;
    PopFlows(p, at + Size(a) + 3, h);
    FlowsWider(p, Op(OP_POP), at + Size(a) + 3, h + 1, {}, h, {}, {}, {out});
    TestFlows(p, n, at + Size(a), h);
    CatFlows(p, test, Op(OP_POP), at + Size(a), h + 1, h + 1, h, {}, {out}, {}, {out});
    CatFlows(p, a, Join(test, Op(OP_POP)), at, h, h + 1, h, {}, {}, {}, {out});
  }

  /** Back to the test, then the pop that the exit of the test jumps to. */
  lemma {:induction false} RepeatFlows(p: Program, atBack: nat, start: nat, h: nat)
    requires Has(p, atBack, Back(atBack, start)) && BackFits(atBack, start) && Has(p, atBack + 3, Op(OP_POP))
    ensures Flows(p, Join(Back(atBack, start), Op(OP_POP)), atBack, h, {Spot(atBack + 3, h + 1)}, h, {Spot(start, h)})
  {
    hide Flows, Has, Op;
    var pop := Spot(atBack + 3, h + 1);
    BackFlows(p, atBack, start, h, h + 1);
    PopFlows(p, atBack + 3, h);
    FlowsWider(p, Op(OP_POP), atBack + 3, h + 1, {pop}, h, {}, {pop}, {Spot(start, h)});
    BackSize(atBack, start);
    CatFlows(p, Back(atBack, start), Op(OP_POP), atBack, h, h + 1, h, {Spot(atBack, h)}, {Spot(start, h)}, {pop}, {Spot(start, h)});
    FlowsWider(p, Join(Back(atBack, start), Op(OP_POP)), atBack, h, {Spot(atBack, h)} + {pop}, h, {Spot(start, h)}, {pop}, {Spot(start, h)});
  }

  lemma {:induction false} BackSize(at: nat, start: int)
    ensures Size(Back(at, start)) == 3
  {}

  /** A `while` loop: both its `continue` target and its exit have the height of its entry. */
  lemma {:induction false} WhileFlows(p: Program, a: Out, b: Out, at: nat, k: nat, live: seq<Local>, marks: set<Spot>, depth: int)
    requires Sits(p, at, k, WhileOut(a, b, at)) && b.tidy && Straight(p, a.code, at, |live|, |live| + 1)
    requires var body := at + Size(a.code) + 4;
             Level(p, b, body, live, marks, |live|, Loop(at, depth, |live|), body + Size(b.code) + 4)
    ensures Flows(p, WhileOut(a, b, at).code, at, |live|, marks, |live|, {})
  {
    hide Flows, Has, Op, Op16, Short, PatchBreaks, PatchFits, Back, ConstsAt;
    WhileSits(p, at, k, a, b);
    var h := |live|;
    var atBody := at + Size(a.code) + 4;
    var atBack := atBody + Size(b.code);
    var pop, again, done := Spot(atBack + 3, h + 1), Spot(at, h), Spot(atBack + 4, h);
    var guard := Join(a.code, Join(Op16(OP_JUMP_IF_FALSE, 4 + Size(b.code)), Op(OP_POP)));
    var tail := Join(Back(atBack, at), Op(OP_POP));
    var body := PatchBreaks(b.code, atBody, atBack + 4);
    BackSize(atBack, at);
    GuardFlows(p, a.code, 4 + Size(b.code), at, h);
    RepeatFlows(p, atBack, at, h);
    CatFlows(p, body, tail, atBody, h, h, h, marks, {again, done}, {pop}, {again});
    CatFlows(p, guard, Join(body, tail), at, h, h, h, {}, {pop}, marks + {pop}, {again});
    var c := Join(guard, Join(body, tail));
    LoopFlows(p, c, at, h, {} + (marks + {pop}), h, {}, {again});
    FlowsWider(p, c, at, h, {} + (marks + {pop}) + {Spot(at, h)}, h, {}, marks, {});
  }

  lemma {:induction false} DoFlows(p: Program, b: Out, a: Out, at: nat, k: nat, live: seq<Local>, marks: set<Spot>, depth: int)
    requires Sits(p, at, k, DoOut(b, a, at)) && b.tidy && Straight(p, a.code, at + Size(b.code), |live|, |live| + 1)
    requires Level(p, b, at, live, marks, |live|, Loop(at, depth, |live|), at + Size(b.code) + Size(a.code) + 8)
    ensures Flows(p, DoOut(b, a, at).code, at, |live|, marks, |live|, {})
  {
    hide Flows, Has, Op, Op16, Short, PatchBreaks, PatchFits, Back, ConstsAt;
    DoSits(p, at, k, b, a);
    var h := |live|;
    var at1 := at + Size(b.code);
    var atBack := at1 + Size(a.code) + 4;
    var pop, again, done := Spot(atBack + 3, h + 1), Spot(at, h), Spot(atBack + 4, h);
    var guard := Join(a.code, Join(Op16(OP_JUMP_IF_FALSE, 4), Op(OP_POP)));
    var tail := Join(Back(atBack, at), Op(OP_POP));
    var body := PatchBreaks(b.code, at, atBack + 4);
    BackSize(atBack, at);
    GuardFlows(p, a.code, 4, at1, h);
    RepeatFlows(p, atBack, at, h);
    CatFlows(p, guard, tail, at1, h, h, h, {}, {pop}, {pop}, {again});
    CatFlows(p, body, Join(guard, tail), at, h, h, h, marks, {again, done}, {} + {pop}, {again});
    var c := Join(body, Join(guard, tail));
    LoopFlows(p, c, at, h, marks + ({} + {pop}), h, {}, {again});
    FlowsWider(p, c, at, h, marks + ({} + {pop}) + {Spot(at, h)}, h, {}, marks, {});
  }

  ghost function IncrEntry(sh: IterShape, h: nat): set<Spot> {
    if sh.hasIncr then {Spot(sh.AtIncr(), h)} else {}
  }

  /** The increment of an `iter` loop: jumped over on the way in, entered by `continue`. */
  lemma {:induction false} IterStepFlows(p: Program, sh: IterShape, i: Code, h: nat)
    requires sh.hasIncr && sh.incr == Size(i) && sh.incr + 4 < 65536
    requires var back := sh.AtIncr() + sh.incr + 1;
             && Has(p, sh.AtStep(), Op16(OP_JUMP, sh.incr + 4)) && Straight(p, i, sh.AtIncr(), h, h + 1)
             && Has(p, back - 1, Op(OP_POP)) && Has(p, back, Back(back, sh.at)) && BackFits(back, sh.at)
    ensures var back := sh.AtIncr() + sh.incr + 1;
            Flows(p, Join(Op16(OP_JUMP, sh.incr + 4), Join(i, Join(Op(OP_POP), Back(back, sh.at)))),
                  sh.AtStep(), h, IncrEntry(sh, h), h, {Spot(sh.at, h)})
  {
    hide Flows, Has, Op, Op16, Back;
    var again := Spot(sh.at, h);
    var back := sh.AtIncr() + sh.incr + 1;
    var none: set<Spot> := {};
    PopFlows(p, back - 1, h);
    BackFlows(p, back, sh.at, h, h);
    FlowsWider(p, Back(back, sh.at), back, h, {Spot(back, h)}, h, {again}, {}, {again});
    CatFlows(p, Op(OP_POP), Back(back, sh.at), back - 1, h + 1, h, h, {}, {}, {}, {again});
    assert none + none == none;
    var tail := Join(Op(OP_POP), Back(back, sh.at));
    CatFlows(p, i, tail, sh.AtIncr(), h, h + 1, h, {}, {}, {}, {again});
    BackSize(back, sh.at);
    LoopFlows(p, Join(i, tail), sh.AtIncr(), h, {}, h, {again}, {again});
    assert none + {Spot(sh.AtIncr(), h)} == {Spot(sh.AtIncr(), h)};
    SkipFlows(p, Op16(OP_JUMP, sh.incr + 4), Join(i, tail), sh.AtStep(), h, h, {Spot(sh.AtIncr(), h)}, {again});
  }

  lemma {:induction false} IterPartsFlow(p: Program, k: nat, sh: IterShape, c: Out, i: Out, b: Out, h: nat)
    requires IterPieces(p, k, sh, c, i, b) && sh.cond == Size(c.code) && sh.incr == Size(i.code)
    requires sh.hasCond ==> Straight(p, c.code, sh.at, h, h + 1)
    requires sh.hasIncr ==> Straight(p, i.code, sh.AtIncr(), h, h + 1)
    ensures var atBack := sh.AtBody() + Size(b.code);
            && Flows(p, IterHead(sh, c.code, atBack), sh.at, h, {}, h, PopEntry(sh, atBack, h))
            && Flows(p, IterStep(sh, i.code), sh.AtStep(), h, IncrEntry(sh, h), h, {Spot(sh.at, h)})
            && Flows(p, IterTail(sh, atBack), atBack, h, PopEntry(sh, atBack, h), h, {Spot(sh.Start(), h), Spot(sh.at, h)})
  {
    hide Flows, Has, Op, Op16, Short, Back, ConstsAt, InPlace, Sits, IterOut;
    var atBack := sh.AtBody() + Size(b.code);
    if sh.hasCond { GuardFlows(p, c.code, atBack - sh.at - sh.cond, sh.at, h); } else { NopFlows(p, sh.at, h, {}); }
    if sh.hasIncr { IterStepFlows(p, sh, i.code, h); } else { NopFlows(p, sh.AtStep(), h, {Spot(sh.at, h)}); }
    IterTailFlows(p, sh, atBack, h);
  }

  ghost function PopEntry(sh: IterShape, atBack: nat, h: nat): set<Spot> {
    if sh.hasCond then {Spot(atBack + 3, h + 1)} else {}
  }

  lemma {:induction false} IterTailFlows(p: Program, sh: IterShape, atBack: nat, h: nat)
    requires Has(p, atBack, Back(atBack, sh.Start())) && BackFits(atBack, sh.Start())
    requires sh.hasCond ==> Has(p, atBack + 3, Op(OP_POP))
    ensures Flows(p, Join(Back(atBack, sh.Start()), if sh.hasCond then Op(OP_POP) else Nop), atBack, h,
                  PopEntry(sh, atBack, h), h, {Spot(sh.Start(), h), Spot(sh.at, h)})
  {
    hide Flows, Has, Op, Back;
    var start, both := Spot(sh.Start(), h), {Spot(sh.Start(), h), Spot(sh.at, h)};
    if sh.hasCond {
      RepeatFlows(p, atBack, sh.Start(), h);
      FlowsWider(p, Join(Back(atBack, sh.Start()), Op(OP_POP)), atBack, h, PopEntry(sh, atBack, h), h, {start},
        PopEntry(sh, atBack, h), both);
    } else {
      BackFlows(p, atBack, sh.Start(), h, h);
      BackSize(atBack, sh.Start());
      NopFlows(p, atBack + 3, h, both);
      CatFlows(p, Back(atBack, sh.Start()), Nop, atBack, h, h, h, {Spot(atBack, h)}, {start}, {}, both);
      FlowsWider(p, Join(Back(atBack, sh.Start()), Nop), atBack, h, {Spot(atBack, h)} + {}, h, both, {}, both);
    }
  }

  /** The four parts of an `iter` loop, one after the other. */
  lemma {:induction false} IterJoins(p: Program, sh: IterShape, head: Code, step: Code, body: Code, tail: Code, marks: set<Spot>, h: nat)
    requires sh.at + Size(head) == sh.AtStep() && sh.AtStep() + Size(step) == sh.AtBody() && Size(tail) >= 3
    requires var atBack := sh.AtBody() + Size(body);
             && Flows(p, head, sh.at, h, {}, h, PopEntry(sh, atBack, h))
             && Flows(p, step, sh.AtStep(), h, IncrEntry(sh, h), h, {Spot(sh.at, h)})
             && Flows(p, body, sh.AtBody(), h, marks, h, {Spot(sh.Start(), h), Spot(atBack + Size(tail), h)})
             && Flows(p, tail, atBack, h, PopEntry(sh, atBack, h), h, {Spot(sh.Start(), h), Spot(sh.at, h)})
    ensures Flows(p, Join(head, Join(step, Join(body, tail))), sh.at, h, marks + {Spot(sh.Start(), h)}, h, {})
  {
    hide Flows;
    var atBack := sh.AtBody() + Size(body);
    var pops, incrs := PopEntry(sh, atBack, h), IncrEntry(sh, h);
    var both := {Spot(sh.Start(), h), Spot(sh.at, h)};
    CatFlows(p, body, tail, sh.AtBody(), h, h, h, marks, {Spot(sh.Start(), h), Spot(atBack + Size(tail), h)}, pops, both);
    CatFlows(p, step, Join(body, tail), sh.AtStep(), h, h, h, incrs, {Spot(sh.at, h)}, marks + pops, both);
    CatFlows(p, head, Join(step, Join(body, tail)), sh.at, h, h, h, {}, pops, incrs + (marks + pops), both);
    var c := Join(head, Join(step, Join(body, tail)));
    var ins := {} + (incrs + (marks + pops));
    LoopFlows(p, c, sh.at, h, ins, h, {}, both);
    FlowsWider(p, c, sh.at, h, ins + {Spot(sh.at, h)}, h, {}, marks + {Spot(sh.Start(), h)}, {});
  }

  /** An `iter` loop: `continue` goes to the increment, or to the test if there is none, with
      the height of the loop's entry. */
  lemma {:induction false} IterFlows(p: Program, k: nat, sh: IterShape, c: Out, i: Out, b: Out, live: seq<Local>, marks: set<Spot>, depth: int)
    requires IterPieces(p, k, sh, c, i, b) && sh.cond == Size(c.code) && sh.incr == Size(i.code)
    requires sh.hasCond ==> Straight(p, c.code, sh.at, |live|, |live| + 1)
    requires sh.hasIncr ==> Straight(p, i.code, sh.AtIncr(), |live|, |live| + 1)
    requires var atBack := sh.AtBody() + Size(b.code);
             Level(p, b, sh.AtBody(), live, marks, |live|, Loop(sh.Start(), depth, |live|), atBack + 3 + if sh.hasCond then 1 else 0)
    ensures Flows(p, IterOut(sh, c, i, b).code, sh.at, |live|, marks + {Spot(sh.Start(), |live|)}, |live|, {})
  {
    hide Flows, Has, Op, Op16, Short, PatchBreaks, PatchFits, Back, ConstsAt, InPlace, Sits, PopEntry, IncrEntry, IterPieces;
    var h := |live|;
    var atBack := sh.AtBody() + Size(b.code);
    var end := atBack + 3 + if sh.hasCond then 1 else 0;
    IterPartsFlow(p, k, sh, c, i, b, h);
    IterSizes(sh, c.code, i.code, atBack);
    IterJoins(p, sh, IterHead(sh, c.code, atBack), IterStep(sh, i.code), PatchBreaks(b.code, sh.AtBody(), end),
      IterTail(sh, atBack), marks, h);
  }

  // ----- using -----

  /** Where the jump table may lead inside the cases, each with one slot per local. */
  ghost function CaseEntries(c: CasesOut, base: nat, h: nat): set<Spot> {
    set j | j in c.table.Values + {c.dfltJump} && j >= 0 :: Spot(base + j, h)
  }

  ghost predicate CasesLevel(p: Program, c: CasesOut, at: nat, base: nat, live: seq<Local>, marks: set<Spot>, loop: Loop, brk: int) {
    Flows(p, PatchBreaks(c.code, at, brk), at, |live|, CaseEntries(c, base, |live|) + marks, |live|, LoopExits(loop, brk))
  }

  lemma {:induction false} SwitchFlows(p: Program, n: nat, at: nat, h: nat, within: int)
    requires Has(p, at, Op16(OP_SWITCH, n)) && n < 65536 && n < |p.consts| && p.consts[n].Switch?
    requires forall j :: j in Targets(p.consts[n]) ==> j >= 0
    ensures Flows(p, Op16(OP_SWITCH, n), at, h + 1, {}, within,
                  set j | j in Targets(p.consts[n]) && j >= 0 :: Spot(at + 3 + j, h))
  {
    hide Next, Flows, Has, Short, Targets;
    ArgNext(p, OP_SWITCH, n, at, h + 1);
    var exits := set j | j in Targets(p.consts[n]) && j >= 0 :: Spot(at + 3 + j, h);
    OneFlows(p, Op16(OP_SWITCH, n), at, h + 1, within, exits);
    FlowsWider(p, Op16(OP_SWITCH, n), at, h + 1, {Spot(at, h + 1)}, within, exits, {}, exits);
  }

  /** Every value the switch may see is sent to a case, to the default or past the cases,
      in each case with the scrutinee gone. */
  lemma {:induction false} UsingFlows(p: Program, a: Out, c: CasesOut, at: nat, k: nat, live: seq<Local>, marks: set<Spot>, loop: Loop, brk: int)
    requires InPlace(p, at, k, UsingOut(a, c, k), brk) && NoBreaks(a.code) && a.tidy && c.dfltJump >= -1
    requires Straight(p, a.code, at, |live|, |live| + 1)
    requires CasesLevel(p, c, at + Size(a.code) + 3, at + Size(a.code) + 3, live, marks, loop, brk)
    ensures Level(p, UsingOut(a, c, k), at, live, marks, |live|, loop, brk)
  {
    hide Flows, Has, Op16, PatchBreaks, PatchFits, LoopExits, Sits, ConstsAt, CaseEntries;
    UsingInPlace(p, at, k, a, c, brk);
    var h, exits := |live|, LoopExits(loop, brk);
    var at1, sw := at + Size(a.code), k + |a.consts| + |c.consts|;
    var switch, cases := Op16(OP_SWITCH, sw), PatchBreaks(c.code, at1 + 3, brk);
    var outs := set j | j in Targets(p.consts[sw]) && j >= 0 :: Spot(at1 + 3 + j, h);
    SwitchFlows(p, sw, at1, h, h);
    var entries := CaseEntries(c, at1 + 3, h) + marks;
    SwitchLands(c, at1 + 3, h, outs);
    CatFlows(p, switch, cases, at1, h + 1, h, h, {}, outs, entries, exits);
    CatFlows(p, a.code, Join(switch, cases), at, h, h + 1, h, {}, {}, {} + entries, exits);
    FlowsWider(p, Join(a.code, Join(switch, cases)), at, h, {} + ({} + entries), h, exits, marks, exits);
    PatchLeavesAlone(a.code, at, brk);
    PatchLeavesAlone(switch, at1, brk);
    PatchJoin(a.code, Join(switch, c.code), at, brk);
    PatchJoin(switch, c.code, at1, brk);
  }

  lemma {:induction false} SwitchLands(c: CasesOut, base: nat, h: nat, outs: set<Spot>)
    requires outs == set j | j in Targets(Switch(c.table, c.dfltJump, Size(c.code))) && j >= 0 :: Spot(base + j, h)
    ensures forall t :: t in outs ==> t in CaseEntries(c, base, h) || (t.ip == base + Size(c.code) && t.height == h)
  {
    forall t | t in outs ensures t in CaseEntries(c, base, h) || (t.ip == base + Size(c.code) && t.height == h) {
      var j :| j in Targets(Switch(c.table, c.dfltJump, Size(c.code))) && j >= 0 && t == Spot(base + j, h);
      if base + j != base + Size(c.code) {
        assert j in c.table.Values + {c.dfltJump};
      }
    }
  }

  lemma {:induction false} DefaultAhead(cases: Cases, live: seq<Local>, depth: nat, at: nat, base: nat, k: nat, loop: Loop)
    requires base <= at
    ensures GenCases(cases, live, depth, at, base, k, loop).dfltJump >= -1
    decreases cases
  {
    hide GenStmt, Join, Op16, LabelTable, Size;
    if cases.When? {
      var b := GenStmt(cases.body, live, depth, at, k, loop);
      DefaultAhead(cases.rest, live, depth, at + Size(b.code) + 3, base, k + |b.consts|, loop);
    }
  }

  /** A case body, the jump past the other cases, and those cases. */
  lemma {:induction false} WhenFlows(p: Program, labels: seq<Literal>, b: Out, r: CasesOut, c: CasesOut, at: nat, base: nat,
      live: seq<Local>, marksB: set<Spot>, marksR: set<Spot>, loop: Loop, brk: int)
    requires base <= at && Size(r.code) < 65536 && Has(p, at + Size(b.code), Op16(OP_JUMP, Size(r.code)))
    requires c.code == Join(b.code, Join(Op16(OP_JUMP, Size(r.code)), r.code))
    requires c.table == LabelTable(labels, at - base) + r.table && c.dfltJump == r.dfltJump
    requires Level(p, b, at, live, marksB, |live|, loop, brk) && CasesLevel(p, r, at + Size(b.code) + 3, base, live, marksR, loop, brk)
    ensures CasesLevel(p, c, at, base, live, marksB + marksR, loop, brk)
  {
    hide Flows, Has, Op16, PatchBreaks, PatchFits, LoopExits, CaseEntries, LabelTable;
    var h, exits, at1 := |live|, LoopExits(loop, brk), at + Size(b.code);
    var skip := Op16(OP_JUMP, Size(r.code));
    var body, rest := PatchBreaks(b.code, at, brk), PatchBreaks(r.code, at1 + 3, brk);
    var entries := CaseEntries(r, base, h) + marksR;
    SkipFlows(p, skip, rest, at1, h, h, entries, exits);
    CatFlows(p, body, Join(skip, rest), at, h, h, h, marksB, exits, entries, exits);
    var whole := Join(body, Join(skip, rest));
    LoopFlows(p, whole, at, h, marksB + entries, h, exits, exits);
    WhenEntries(labels, r, c, at, base, h);
    FlowsWider(p, whole, at, h, marksB + entries + {Spot(at, h)}, h, exits, CaseEntries(c, base, h) + (marksB + marksR), exits);
    PatchJoin(b.code, Join(skip, r.code), at, brk);
    PatchJoin(skip, r.code, at1, brk);
    PatchLeavesAlone(skip, at1, brk);
  }

  lemma {:induction false} WhenEntries(labels: seq<Literal>, r: CasesOut, c: CasesOut, at: nat, base: nat, h: nat)
    requires base <= at && c.table == LabelTable(labels, at - base) + r.table && c.dfltJump == r.dfltJump
    ensures CaseEntries(c, base, h) <= CaseEntries(r, base, h) + {Spot(at, h)}
  {
    forall t | t in CaseEntries(c, base, h) ensures t in CaseEntries(r, base, h) + {Spot(at, h)} {
      var j :| j in c.table.Values + {c.dfltJump} && j >= 0 && t == Spot(base + j, h);
      if j in c.table.Values && j !in r.table.Values {
        var v :| v in c.table && c.table[v] == j;
        assert j == at - base;
      } else {
        assert j in r.table.Values + {r.dfltJump};
      }
    }
  }

  lemma {:induction false} DefaultFlows(p: Program, d: Out, c: CasesOut, at: nat, base: nat, live: seq<Local>, marks: set<Spot>,
      loop: Loop, brk: int)
    requires base <= at && c.code == d.code && c.table == map[] && c.dfltJump == at - base
    requires Level(p, d, at, live, marks, |live|, loop, brk)
    ensures CasesLevel(p, c, at, base, live, marks, loop, brk)
  {
    hide Flows, PatchBreaks, LoopExits;
    var code, exits := PatchBreaks(d.code, at, brk), LoopExits(loop, brk);
    var edges := {Spot(at, |live|), Spot(at + Size(code), |live|)};
    EdgesFlow(p, code, at, |live|, marks, |live|, exits);
    FlowsWider(p, code, at, |live|, edges + marks, |live|, exits, CaseEntries(c, base, |live|) + marks, exits);
  }

  lemma {:induction false} NoCaseFlows(p: Program, c: CasesOut, at: nat, base: nat, live: seq<Local>, loop: Loop, brk: int)
    requires c.code == Nop && c.table == map[] && c.dfltJump == -1
    ensures CasesLevel(p, c, at, base, live, {}, loop, brk)
  {
    hide Flows, LoopExits;
    NopFlows(p, at, |live|, LoopExits(loop, brk));
    assert CaseEntries(c, base, |live|) + {} == {};
  }
}
