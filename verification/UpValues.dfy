/** Captured variables at run time. Closures share variables through up-values: an up-value
    points at the variable's stack slot while the slot is live and holds the value itself
    afterwards. The reference semantics knows no up-values: every variable is a cell, and
    reading a cell gives the last value anyone wrote to it. */
module UpValues {
  import opened Basics
  import opened Values

  // ----- reference semantics -----

  datatype Write = Write(cell: nat, v: Value)

  datatype Frame = Frame(closure: nat, base: nat)

  /** Where a new closure finds a captured variable: in a slot of the function that creates
      it, or among the variables that function captured itself. */
  datatype Descriptor = Descriptor(isLocal: bool, index: nat)

  /** The cell of every stack slot, the cells each closure captured, and all writes so far. */
  datatype Cells = Cells(slots: seq<nat>, closures: seq<seq<nat>>, frames: seq<Frame>, log: seq<Write>,
                         made: nat, captured: set<nat>)
  {
    function Base(): nat { if frames == [] then 0 else frames[|frames| - 1].base }
    function Running(): nat { if frames == [] then 0 else frames[|frames| - 1].closure }
    function Top(): Value { if slots == [] then Nil else Last(log, slots[|slots| - 1]) }
  }

  /** The last value written to `cell`. */
  function Last(log: seq<Write>, cell: nat): Value {
    if log == [] then Nil
    else if log[|log| - 1].cell == cell then log[|log| - 1].v
    else Last(log[..|log| - 1], cell)
  }

  datatype Step =
    | Push(v: Value)
    | Pop
    | GetLocal(slot: nat)
    | SetLocal(slot: nat)
    | GetUpValue(index: nat)
    | SetUpValue(index: nat)
    | MakeClosure(captures: seq<Descriptor>)
    | CloseUpValue
    | Call(argCount: nat)
    | Return

  predicate Found(s: Cells, d: Descriptor, live: nat) {
    if d.isLocal then s.Base() + d.index < live
    else s.Running() < |s.closures| && d.index < |s.closures[s.Running()]|
  }

  /** What compiled code guarantees of each step: operands exist, and a captured slot leaves
      the stack only by `CloseUpValue` or `Return`. */
  predicate Enabled(s: Cells, op: Step) {
    match op
    case Push(v) => true
    case Pop => s.slots != [] && s.slots[|s.slots| - 1] !in s.captured
    case GetLocal(i) => s.Base() + i < |s.slots|
    case SetLocal(i) => s.slots != [] && s.Base() + i < |s.slots|
    case GetUpValue(i) => s.Running() < |s.closures| && i < |s.closures[s.Running()]|
    case SetUpValue(i) => s.slots != [] && s.Running() < |s.closures| && i < |s.closures[s.Running()]|
    case MakeClosure(ds) => forall d :: d in ds ==> Found(s, d, |s.slots| + 1)
    case CloseUpValue => s.slots != []
    case Call(n) => n < |s.slots| && Last(s.log, s.slots[|s.slots| - n - 1]).Obj?
                    && Last(s.log, s.slots[|s.slots| - n - 1]).ref < |s.closures|
    case Return => |s.frames| >= 2 && s.Base() < |s.slots|
  }

  function PushCell(s: Cells, v: Value): Cells {
    s.(slots := s.slots + [s.made], log := s.log + [Write(s.made, v)], made := s.made + 1)
  }

  function Drop(s: Cells, n: nat): Cells
    requires n <= |s.slots|
  {
    s.(slots := s.slots[..n])
  }

  function CellOf(s: Cells, d: Descriptor): nat
    requires Found(s, d, |s.slots|)
  {
    if d.isLocal then s.slots[s.Base() + d.index] else s.closures[s.Running()][d.index]
  }

  /** The cells the first `n` descriptors name. */
  function CellsOf(s: Cells, ds: seq<Descriptor>): (cs: seq<nat>)
    requires forall d :: d in ds ==> Found(s, d, |s.slots|)
    ensures |cs| == |ds|
  {
    seq(|ds|, i requires 0 <= i < |ds| => CellOf(s, ds[i]))
  }

  function LocalCells(s: Cells, ds: seq<Descriptor>): set<nat>
    requires forall d :: d in ds ==> Found(s, d, |s.slots|)
  {
    set d | d in ds && d.isLocal :: CellOf(s, d)
  }

  /** One step on cells. Storing the empty value raises an error and changes nothing. */
  function Next(s: Cells, op: Step): Cells
    requires Enabled(s, op)
  {
    match op
    case Push(v) => PushCell(s, v)
    case Pop => Drop(s, |s.slots| - 1)
    case GetLocal(i) => PushCell(s, Last(s.log, s.slots[s.Base() + i]))
    case SetLocal(i) => if s.Top().Empty? then s else s.(log := s.log + [Write(s.slots[s.Base() + i], s.Top())])
    case GetUpValue(i) => PushCell(s, Last(s.log, s.closures[s.Running()][i]))
    case SetUpValue(i) =>
      if s.Top().Empty? then s else s.(log := s.log + [Write(s.closures[s.Running()][i], s.Top())])
    case MakeClosure(ds) =>
      var t := PushCell(s, Obj(|s.closures|));
      t.(closures := s.closures + [CellsOf(t, ds)], captured := s.captured + LocalCells(t, ds))
    case CloseUpValue => Drop(s, |s.slots| - 1)
    case Call(n) =>
      var base := |s.slots| - n - 1;
      s.(frames := s.frames + [Frame(Last(s.log, s.slots[base]).ref, base)])
    case Return => PushCell(Drop(s, s.Base()), s.Top()).(frames := s.frames[..|s.frames| - 1])
  }

  predicate AllEnabled(s: Cells, ops: seq<Step>)
    decreases |ops|
  {
    ops == [] || (Enabled(s, ops[0]) && AllEnabled(Next(s, ops[0]), ops[1..]))
  }

  /** The values a run reads from variables, and the state it ends in. */
  function Observe(s: Cells, ops: seq<Step>): (r: (seq<Value>, Cells))
    requires AllEnabled(s, ops)
    decreases |ops|
  {
    if ops == [] then ([], s) else
      var t := Next(s, ops[0]);
      var rest := Observe(t, ops[1..]);
      ((if ops[0].GetLocal? || ops[0].GetUpValue? then [t.Top()] else []) + rest.0, rest.1)
  }

  lemma {:induction false} LastOfWrite(log: seq<Write>, w: Write, cell: nat)
    ensures Last(log + [w], cell) == if w.cell == cell then w.v else Last(log, cell)
  {
    assert (log + [w])[..|log|] == log;
  }

  // ----- the machine -----

  /** Where an up-value's value lives: in a stack slot, or in the up-value itself. */
  datatype Location = Slot(i: nat) | Own

  /** An up-value object; references are places in the heap of up-values. */
  datatype UpValue = UpValue(location: Location, closed: Value, next: Option<nat>)

  ghost function At(open: seq<nat>, k: nat): Option<nat> {
    if k < |open| then Some(open[k]) else None
  }

  /** The `k`-th up-value of the list points at a slot and to the next in the list. */
  ghost predicate Link(heap: seq<UpValue>, open: seq<nat>, k: nat) {
    && k < |open| && open[k] < |heap|
    && heap[open[k]].location.Slot? && heap[open[k]].next == At(open, k + 1)
  }

  /** The list from `head` runs through `open`, strictly descending by slot. */
  ghost predicate Chain(heap: seq<UpValue>, head: Option<nat>, open: seq<nat>) {
    && head == At(open, 0)
    && (forall k :: 0 <= k < |open| ==> Link(heap, open, k))
    && (forall j, k :: 0 <= j < k < |open| ==> Apart(heap, open, j, k))
  }

  ghost predicate Apart(heap: seq<UpValue>, open: seq<nat>, j: nat, k: nat) {
    && j < |open| && k < |open| && open[j] < |heap| && open[k] < |heap|
    && heap[open[j]].location.Slot? && heap[open[k]].location.Slot?
    && heap[open[j]].location.i > heap[open[k]].location.i
  }

  /** Up-value `u` stands for `cell`: an open one is the slot of that cell, a closed one
      holds the cell's value and no slot below `top` has that cell any more. */
  ghost predicate Stands(heap: seq<UpValue>, open: seq<nat>, cell: nat, s: Cells, top: nat, u: nat)
    requires top <= |s.slots| && u < |heap|
  {
    && cell < s.made
    && match heap[u].location
       case Slot(i) => u in open && i < |s.slots| && s.slots[i] == cell && cell in s.captured
       case Own => u !in open && heap[u].closed == Last(s.log, cell) && cell !in s.slots[..top]
  }

  ghost predicate AllStand(heap: seq<UpValue>, open: seq<nat>, cellOf: seq<nat>, s: Cells, top: nat)
    requires top <= |s.slots|
  {
    |cellOf| == |heap| && forall u :: 0 <= u < |heap| ==> Stands(heap, open, cellOf[u], s, top, u)
  }

  /** No two up-values stand for the same variable. */
  ghost predicate Unique(cellOf: seq<nat>) {
    forall u, v :: 0 <= u < v < |cellOf| ==> cellOf[u] != cellOf[v]
  }

  ghost predicate StackHolds(memory: seq<Value>, s: Cells) {
    && |s.slots| <= |memory|
    && (forall i :: 0 <= i < |s.slots| ==> s.slots[i] < s.made)
    && (forall i :: 0 <= i < |s.slots| ==> memory[i] == Last(s.log, s.slots[i]))
    && (forall i, j :: 0 <= i < j < |s.slots| ==> s.slots[i] != s.slots[j])
  }

  ghost predicate Stored(ups: seq<nat>, cellOf: seq<nat>, cells: seq<nat>) {
    |ups| == |cells| && forall i :: 0 <= i < |ups| ==> ups[i] < |cellOf| && cellOf[ups[i]] == cells[i]
  }

  ghost predicate Captures(closures: seq<seq<nat>>, cellOf: seq<nat>, s: Cells) {
    |closures| == |s.closures| && forall c :: 0 <= c < |closures| ==> Stored(closures[c], cellOf, s.closures[c])
  }

  // ----- what each change keeps -----

  ghost predicate Intact(memory: seq<Value>, heap: seq<UpValue>, open: seq<nat>, closures: seq<seq<nat>>,
                         cellOf: seq<nat>, s: Cells, top: nat) {
    && top <= |s.slots| && StackHolds(memory, s) && Captures(closures, cellOf, s) && AllStand(heap, open, cellOf, s, top)
  }

  lemma {:induction false} PushKeeps(memory: seq<Value>, heap: seq<UpValue>, open: seq<nat>, closures: seq<seq<nat>>,
                                     cellOf: seq<nat>, s: Cells, v: Value)
    requires Intact(memory, heap, open, closures, cellOf, s, |s.slots|)
    ensures var top := |s.slots|;
            Intact(if top < |memory| then memory[top := v] else memory + [v], heap, open, closures, cellOf,
                   PushCell(s, v), top + 1)
  {
    hide Last;
    var t := PushCell(s, v);
    var w := Write(s.made, v);
    forall cell ensures Last(t.log, cell) == if cell == s.made then v else Last(s.log, cell) {
      LastOfWrite(s.log, w, cell);
    }
    forall u | 0 <= u < |heap| ensures Stands(heap, open, cellOf[u], t, |t.slots|, u) {
      assert Stands(heap, open, cellOf[u], s, |s.slots|, u);
    }
  }

  /** Marking the cell of a slot as captured. */
  lemma {:induction false} MarkKeeps(memory: seq<Value>, heap: seq<UpValue>, open: seq<nat>, closures: seq<seq<nat>>,
                                     cellOf: seq<nat>, s: Cells, slot: nat)
    requires Intact(memory, heap, open, closures, cellOf, s, |s.slots|) && slot < |s.slots|
    ensures Intact(memory, heap, open, closures, cellOf, s.(captured := s.captured + {s.slots[slot]}), |s.slots|)
    ensures s.slots[slot] < s.made
  {
    hide Last;
    forall u | 0 <= u < |heap|
      ensures Stands(heap, open, cellOf[u], s.(captured := s.captured + {s.slots[slot]}), |s.slots|, u) {
      assert Stands(heap, open, cellOf[u], s, |s.slots|, u);
    }
  }

  lemma {:induction false} SameLength(heap: seq<UpValue>, open: seq<nat>, cellOf: seq<nat>, s: Cells)
    requires AllStand(heap, open, cellOf, s, |s.slots|)
    ensures |cellOf| == |heap|
  {}

  lemma {:induction false} FoundStands(heap: seq<UpValue>, open: seq<nat>, cellOf: seq<nat>, s: Cells, u: nat, slot: nat)
    requires AllStand(heap, open, cellOf, s, |s.slots|) && u < |heap| && heap[u].location == Slot(slot)
    ensures |cellOf| == |heap| && slot < |s.slots| && cellOf[u] == s.slots[slot]
  {
    assert Stands(heap, open, cellOf[u], s, |s.slots|, u);
  }

  function Inserted(heap: seq<UpValue>, prev: Option<nat>, up: Option<nat>, slot: nat): seq<UpValue>
    requires prev.Some? ==> prev.value < |heap|
  {
    var h := heap + [UpValue(Slot(slot), Nil, up)];
    if prev.None? then h else h[prev.value := h[prev.value].(next := Some(|heap|))]
  }

  /** `k` is where `slot` belongs in the list. */
  ghost predicate Place(heap: seq<UpValue>, open: seq<nat>, k: nat, slot: nat) {
    && k <= |open|
    && (forall j :: 0 <= j < k ==> Above(heap, open, j, slot))
    && (k < |open| ==> open[k] < |heap| && heap[open[k]].location.Slot? && heap[open[k]].location.i < slot)
  }

  ghost predicate Above(heap: seq<UpValue>, open: seq<nat>, j: nat, slot: nat) {
    j < |open| && open[j] < |heap| && heap[open[j]].location.Slot? && heap[open[j]].location.i > slot
  }

  lemma {:induction false} InsertKeeps(heap: seq<UpValue>, head: Option<nat>, open: seq<nat>, k: nat, slot: nat, prev: Option<nat>)
    requires Chain(heap, head, open) && Place(heap, open, k, slot) && prev == if k == 0 then None else Some(open[k - 1])
    ensures prev.Some? ==> prev.value < |heap|
    ensures Chain(Inserted(heap, prev, At(open, k), slot), if k == 0 then Some(|heap|) else head, open[..k] + [|heap|] + open[k..])
  {
    hide Inserted;
    if k > 0 { assert Above(heap, open, k - 1, slot); }
    var h, o := Inserted(heap, prev, At(open, k), slot), open[..k] + [|heap|] + open[k..];
    forall j | 0 <= j < |o| ensures Link(h, o, j) { InsertLinks(heap, head, open, k, slot, prev, j); }
    forall i, j | 0 <= i < j < |o| ensures Apart(h, o, i, j) {
      InsertLinks(heap, head, open, k, slot, prev, i);
      InsertLinks(heap, head, open, k, slot, prev, j);
      InsertApart(heap, head, open, k, slot, i, j);
    }
  }

  lemma {:induction false} InsertLinks(heap: seq<UpValue>, head: Option<nat>, open: seq<nat>, k: nat, slot: nat, prev: Option<nat>, j: nat)
    requires Chain(heap, head, open) && Place(heap, open, k, slot) && j <= |open|
    requires prev == (if k == 0 then None else Some(open[k - 1])) && (prev.Some? ==> prev.value < |heap|)
    ensures var h := Inserted(heap, prev, At(open, k), slot); var o := open[..k] + [|heap|] + open[k..];
            && Link(h, o, j) && o[j] <= |heap|
            && (j == k ==> h[o[j]].location == Slot(slot))
            && (j != k ==> o[j] < |heap| && h[o[j]].location == heap[o[j]].location)
  {
    hide Inserted;
    var o := open[..k] + [|heap|] + open[k..];
    if j != k { assert Link(heap, open, if j < k then j else j - 1); }
    InsertedAt(heap, open, prev, At(open, k), slot, o[j]);
    if j < k { Distinct(heap, head, open, j, k - 1); }
    else if j > k && k > 0 { Distinct(heap, head, open, k - 1, j - 1); }
  }

  lemma {:induction false} InsertApart(heap: seq<UpValue>, head: Option<nat>, open: seq<nat>, k: nat, slot: nat, i: nat, j: nat)
    requires Chain(heap, head, open) && Place(heap, open, k, slot) && i < j <= |open|
    ensures i < k ==> Link(heap, open, i)
    ensures i > k ==> Link(heap, open, i - 1)
    ensures j < k ==> Link(heap, open, j)
    ensures j > k ==> Link(heap, open, j - 1)
    ensures (if i < k then heap[open[i]].location.i else if i == k then slot else heap[open[i - 1]].location.i)
          > (if j < k then heap[open[j]].location.i else if j == k then slot else heap[open[j - 1]].location.i)
  {
    if j < k { assert Apart(heap, open, i, j); }
    else if i < k { assert Above(heap, open, i, slot); if j > k { assert Apart(heap, open, i, j - 1); } }
    else if i > k { assert Apart(heap, open, i - 1, j - 1); }
    else if j - 1 > k { assert Apart(heap, open, k, j - 1); }
  }

  lemma {:induction false} InsertedAt(heap: seq<UpValue>, open: seq<nat>, prev: Option<nat>, up: Option<nat>, slot: nat, u: nat)
    requires (prev.Some? ==> prev.value < |heap|) && u <= |heap|
    ensures var h := Inserted(heap, prev, up, slot);
            && |h| == |heap| + 1
            && h[u].location == (if u == |heap| then Slot(slot) else heap[u].location)
            && h[u].next == (if u == |heap| then up else if prev == Some(u) then Some(|heap|) else heap[u].next)
  {}

  lemma {:induction false} Ordered(heap: seq<UpValue>, head: Option<nat>, open: seq<nat>, j: nat, k: nat)
    requires Chain(heap, head, open) && j < |open| && k < |open|
    ensures (j < k ==> Apart(heap, open, j, k)) && (k < j ==> Apart(heap, open, k, j))
  {}

  /** No up-value is listed twice. */
  lemma {:induction false} Distinct(heap: seq<UpValue>, head: Option<nat>, open: seq<nat>, j: nat, k: nat)
    requires Chain(heap, head, open) && j <= k < |open|
    ensures j < k ==> open[j] != open[k]
  {
    if j < k { assert Apart(heap, open, j, k); }
  }

  lemma {:induction false} InsertStands(heap: seq<UpValue>, open: seq<nat>, cellOf: seq<nat>, s: Cells, k: nat, slot: nat, prev: Option<nat>, up: Option<nat>)
    requires AllStand(heap, open, cellOf, s, |s.slots|) && k <= |open| && slot < |s.slots|
    requires s.slots[slot] in s.captured && s.slots[slot] < s.made
    requires prev.Some? ==> prev.value < |heap|
    ensures AllStand(Inserted(heap, prev, up, slot), open[..k] + [|heap|] + open[k..], cellOf + [s.slots[slot]], s, |s.slots|)
  {
    hide Last;
    var h, o, c := Inserted(heap, prev, up, slot), open[..k] + [|heap|] + open[k..], cellOf + [s.slots[slot]];
    forall u | 0 <= u < |h| ensures Stands(h, o, c[u], s, |s.slots|, u) {
      if u < |heap| {
        assert Stands(heap, open, cellOf[u], s, |s.slots|, u);
        InsertedMember(open, k, |heap|, u);
      } else {
        assert o[k] == |heap|;
      }
    }
  }

  lemma {:induction false} InsertUnique(memory: seq<Value>, heap: seq<UpValue>, head: Option<nat>, open: seq<nat>,
                                        cellOf: seq<nat>, s: Cells, k: nat, slot: nat)
    requires Chain(heap, head, open) && StackHolds(memory, s) && Place(heap, open, k, slot) && slot < |s.slots|
    requires AllStand(heap, open, cellOf, s, |s.slots|) && Unique(cellOf)
    ensures Unique(cellOf + [s.slots[slot]])
  {
    hide Last;
    forall u | 0 <= u < |heap| ensures cellOf[u] != s.slots[slot] {
      assert Stands(heap, open, cellOf[u], s, |s.slots|, u);
      if u in open {
        var m :| 0 <= m < |open| && open[m] == u;
        if m < k { assert Above(heap, open, m, slot); } else if m > k { assert Apart(heap, open, k, m); }
      } else {
        assert s.slots[..|s.slots|] == s.slots;
      }
    }
  }

  lemma {:induction false} InsertedMember(open: seq<nat>, k: nat, n: nat, u: nat)
    requires k <= |open| && u != n
    ensures u in open[..k] + [n] + open[k..] <==> u in open
  {
    assert open == open[..k] + open[k..];
  }

  lemma {:induction false} CapturesGrow(closures: seq<seq<nat>>, cellOf: seq<nat>, cell: nat, s: Cells)
    requires Captures(closures, cellOf, s)
    ensures Captures(closures, cellOf + [cell], s)
  {
    forall c | 0 <= c < |closures| ensures Stored(closures[c], cellOf + [cell], s.closures[c]) {
      assert Stored(closures[c], cellOf, s.closures[c]);
    }
  }

  lemma {:induction false} FewerSlots(heap: seq<UpValue>, open: seq<nat>, cellOf: seq<nat>, s: Cells, top: nat, less: nat)
    requires less <= top <= |s.slots| && AllStand(heap, open, cellOf, s, top)
    ensures AllStand(heap, open, cellOf, s, less)
  {
    hide Last;
    assert s.slots[..less] == s.slots[..top][..less];
    forall u | 0 <= u < |heap| ensures Stands(heap, open, cellOf[u], s, less, u) {
      assert Stands(heap, open, cellOf[u], s, top, u);
    }
  }

  /** Closing the first up-value of the list, whose slot is at or above `last`. */
  lemma {:induction false} CloseKeeps(memory: seq<Value>, heap: seq<UpValue>, head: Option<nat>, open: seq<nat>,
                                      cellOf: seq<nat>, s: Cells, last: nat)
    requires Chain(heap, head, open) && StackHolds(memory, s) && last <= |s.slots| && AllStand(heap, open, cellOf, s, last)
    requires open != [] && open[0] < |heap| && heap[open[0]].location.Slot? && heap[open[0]].location.i >= last
    ensures var u := open[0]; var i := heap[u].location.i;
            && i < |memory|
            && var h := heap[u := UpValue(Own, memory[i], heap[u].next)];
               Chain(h, heap[u].next, open[1..]) && AllStand(h, open[1..], cellOf, s, last)
  {
    hide Last;
    var u := open[0];
    assert Link(heap, open, 0);
    assert Stands(heap, open, cellOf[u], s, last, u);
    var i := heap[u].location.i;
    var h := heap[u := UpValue(Own, memory[i], heap[u].next)];
    var o := open[1..];
    forall k | 0 <= k < |o| ensures o[k] != u && Link(h, o, k) {
      assert Apart(heap, open, 0, k + 1) && Link(heap, open, k + 1);
    }
    forall j, k | 0 <= j < k < |o| ensures Apart(h, o, j, k) {
      assert Apart(heap, open, 0, j + 1) && Apart(heap, open, j + 1, k + 1);
    }
    forall v | 0 <= v < |h| ensures Stands(h, open[1..], cellOf[v], s, last, v) {
      assert Stands(heap, open, cellOf[v], s, last, v);
      if v != u { assert v in open <==> v in open[1..] by { assert open == [u] + open[1..]; } }
      else { assert s.slots[i] == cellOf[u] && forall j :: 0 <= j < last ==> s.slots[j] != s.slots[i]; }
    }
  }

  lemma {:induction false} WriteSlotKeeps(memory: seq<Value>, heap: seq<UpValue>, open: seq<nat>, closures: seq<seq<nat>>,
                                          cellOf: seq<nat>, s: Cells, i: nat, v: Value)
    requires Intact(memory, heap, open, closures, cellOf, s, |s.slots|) && i < |s.slots|
    ensures i < |memory| && Intact(memory[i := v], heap, open, closures, cellOf, s.(log := s.log + [Write(s.slots[i], v)]), |s.slots|)
  {
    hide Last;
    forall u | 0 <= u < |heap| ensures !(heap[u].location.Own? && cellOf[u] == s.slots[i]) {
      assert Stands(heap, open, cellOf[u], s, |s.slots|, u);
      assert s.slots[..|s.slots|] == s.slots;
    }
    WriteKeeps(memory, heap, open, closures, cellOf, s, s.slots[i], v, memory[i := v], heap);
  }

  lemma {:induction false} WriteOwnKeeps(memory: seq<Value>, heap: seq<UpValue>, head: Option<nat>, open: seq<nat>,
                                         closures: seq<seq<nat>>, cellOf: seq<nat>, s: Cells, u: nat, v: Value)
    requires Intact(memory, heap, open, closures, cellOf, s, |s.slots|) && Chain(heap, head, open) && Unique(cellOf)
    requires u < |heap| && heap[u].location.Own?
    ensures |cellOf| == |heap| && Chain(heap[u := heap[u].(closed := v)], head, open)
    ensures Intact(memory, heap[u := heap[u].(closed := v)], open, closures, cellOf, s.(log := s.log + [Write(cellOf[u], v)]), |s.slots|)
  {
    hide Last;
    var h := heap[u := heap[u].(closed := v)];
    assert Stands(heap, open, cellOf[u], s, |s.slots|, u);
    assert s.slots[..|s.slots|] == s.slots;
    forall k | 0 <= k < |open| ensures Link(h, open, k) { assert Link(heap, open, k); }
    forall j, k | 0 <= j < k < |open| ensures Apart(h, open, j, k) { assert Apart(heap, open, j, k); }
    WriteKeeps(memory, heap, open, closures, cellOf, s, cellOf[u], v, memory, h);
  }

  lemma {:induction false} StoredIn(closures: seq<seq<nat>>, cellOf: seq<nat>, s: Cells, c: nat, i: nat)
    requires Captures(closures, cellOf, s) && c < |s.closures| && i < |s.closures[c]|
    ensures c < |closures| && i < |closures[c]| && closures[c][i] < |cellOf| && cellOf[closures[c][i]] == s.closures[c][i]
  {
    assert Stored(closures[c], cellOf, s.closures[c]);
  }

  lemma {:induction false} ClosureCount(closures: seq<seq<nat>>, cellOf: seq<nat>, s: Cells)
    requires Captures(closures, cellOf, s)
    ensures |closures| == |s.closures|
  {}

  /** A further captured variable of the closure being made. */
  lemma {:induction false} OneMore(t: Cells, ds: seq<Descriptor>, i: nat, ups: seq<nat>, before: seq<nat>, cellOf: seq<nat>, u: nat)
    requires i < |ds| && (forall d :: d in ds ==> Found(t, d, |t.slots|))
    requires Stored(ups, before, CellsOf(t, ds[..i])) && before <= cellOf
    requires u < |cellOf| && cellOf[u] == CellOf(t, ds[i])
    ensures Stored(ups + [u], cellOf, CellsOf(t, ds[..i + 1]))
    ensures LocalCells(t, ds[..i + 1]) == LocalCells(t, ds[..i]) + if ds[i].isLocal then {CellOf(t, ds[i])} else {}
  {
    assert ds[..i + 1] == ds[..i] + [ds[i]];
  }

  lemma {:induction false} ClosureAdded(memory: seq<Value>, heap: seq<UpValue>, open: seq<nat>, closures: seq<seq<nat>>,
                                        cellOf: seq<nat>, s: Cells, ups: seq<nat>, cells: seq<nat>)
    requires Intact(memory, heap, open, closures, cellOf, s, |s.slots|) && Stored(ups, cellOf, cells)
    ensures Intact(memory, heap, open, closures + [ups], cellOf, s.(closures := s.closures + [cells]), |s.slots|)
  {
    hide Last;
    var t := s.(closures := s.closures + [cells]);
    forall u | 0 <= u < |heap| ensures Stands(heap, open, cellOf[u], t, |t.slots|, u) {
      assert Stands(heap, open, cellOf[u], s, |s.slots|, u);
    }
    forall c | 0 <= c < |closures| + 1 ensures Stored((closures + [ups])[c], cellOf, t.closures[c]) {
      if c < |closures| { assert Stored(closures[c], cellOf, s.closures[c]); }
    }
  }

  lemma {:induction false} DropKeeps(memory: seq<Value>, heap: seq<UpValue>, open: seq<nat>, closures: seq<seq<nat>>,
                                     cellOf: seq<nat>, s: Cells, n: nat)
    requires Intact(memory, heap, open, closures, cellOf, s, n) && Below(heap, open, n)
    ensures Intact(memory, heap, open, closures, cellOf, Drop(s, n), n)
  {
    hide Last;
    var t := Drop(s, n);
    assert t.slots[..n] == s.slots[..n];
    forall u | 0 <= u < |heap| ensures Stands(heap, open, cellOf[u], t, n, u) {
      assert Stands(heap, open, cellOf[u], s, n, u);
      if u in open { var k :| 0 <= k < |open| && open[k] == u; }
    }
  }

  /** A slot whose variable no closure has captured has no up-value. */
  lemma {:induction false} NoneAtTop(heap: seq<UpValue>, head: Option<nat>, open: seq<nat>, cellOf: seq<nat>, s: Cells)
    requires Chain(heap, head, open) && AllStand(heap, open, cellOf, s, |s.slots|)
    requires s.slots != [] && s.slots[|s.slots| - 1] !in s.captured
    ensures Below(heap, open, |s.slots| - 1)
  {
    hide Last;
    forall k | 0 <= k < |open|
      ensures open[k] < |heap| && heap[open[k]].location.Slot? && heap[open[k]].location.i < |s.slots| - 1 {
      assert Link(heap, open, k);
      assert Stands(heap, open, cellOf[open[k]], s, |s.slots|, open[k]);
    }
  }

  lemma {:induction false} FramesDrop(memory: seq<Value>, heap: seq<UpValue>, open: seq<nat>, closures: seq<seq<nat>>,
                                      cellOf: seq<nat>, s: Cells, frames: seq<Frame>)
    requires Intact(memory, heap, open, closures, cellOf, s, |s.slots|)
    ensures Intact(memory, heap, open, closures, cellOf, s.(frames := frames), |s.slots|)
  {
    hide Last;
    forall u | 0 <= u < |heap| ensures Stands(heap, open, cellOf[u], s.(frames := frames), |s.slots|, u) {
      assert Stands(heap, open, cellOf[u], s, |s.slots|, u);
    }
  }

  const START := Cells([0], [[]], [Frame(0, 0)], [Write(0, Obj(0))], 1, {})

  lemma {:induction false} StartHolds()
    ensures Chain([], None, []) && Intact([Obj(0)], [], [], [[]], [], START, 1)
  {
    assert START.slots[0] == 0 && Last(START.log, 0) == Obj(0);
  }

  ghost predicate Listed(heap: seq<UpValue>, head: Option<nat>, open: seq<nat>) {
    if open == [] then head.None? else head == Some(open[0]) && open[0] < |heap| && heap[open[0]].location.Slot?
  }

  ghost predicate Below(heap: seq<UpValue>, open: seq<nat>, last: nat) {
    forall k :: 0 <= k < |open| ==> open[k] < |heap| && heap[open[k]].location.Slot? && heap[open[k]].location.i < last
  }

  lemma {:induction false} HeadIsListed(heap: seq<UpValue>, head: Option<nat>, open: seq<nat>, last: nat)
    requires Chain(heap, head, open)
    ensures Listed(heap, head, open)
    ensures (open == [] || heap[open[0]].location.i < last) ==> Below(heap, open, last)
  {
    forall k | 0 <= k < |open|
      ensures Link(heap, open, k) && open[0] < |heap| && heap[open[0]].location.Slot?
      ensures heap[open[0]].location.i >= heap[open[k]].location.i {
      if k > 0 { assert Apart(heap, open, 0, k); }
    }
    if open != [] { assert Link(heap, open, 0); }
  }

  /** Writing `v` to the variable `cell`, wherever it lives. */
  lemma {:induction false} WriteKeeps(memory: seq<Value>, heap: seq<UpValue>, open: seq<nat>, closures: seq<seq<nat>>,
                                      cellOf: seq<nat>, s: Cells, cell: nat, v: Value, memory': seq<Value>, heap': seq<UpValue>)
    requires Intact(memory, heap, open, closures, cellOf, s, |s.slots|) && |memory'| == |memory| && |heap'| == |heap|
    requires forall i :: 0 <= i < |s.slots| ==> memory'[i] == if s.slots[i] == cell then v else memory[i]
    requires forall u :: 0 <= u < |heap| ==>
               heap'[u] == if heap[u].location.Own? && cellOf[u] == cell then heap[u].(closed := v) else heap[u]
    ensures Intact(memory', heap', open, closures, cellOf, s.(log := s.log + [Write(cell, v)]), |s.slots|)
  {
    hide Last;
    var t := s.(log := s.log + [Write(cell, v)]);
    forall c ensures Last(t.log, c) == if c == cell then v else Last(s.log, c) {
      LastOfWrite(s.log, Write(cell, v), c);
    }
    forall u | 0 <= u < |heap| ensures Stands(heap', open, cellOf[u], t, |t.slots|, u) {
      assert Stands(heap, open, cellOf[u], s, |s.slots|, u);
    }
  }

  class Machine {
    var memory: seq<Value>
    var stackTop: nat
    var frames: seq<Frame>
    var closures: seq<seq<nat>>
    var heap: seq<UpValue>
    var openUpValues: Option<nat>
    ghost var open: seq<nat>
    ghost var cellOf: seq<nat>
    ghost var cells: Cells

    ghost predicate Inv(top: nat)
      reads this
    {
      && top <= |cells.slots| && frames == cells.frames
      && Chain(heap, openUpValues, open) && StackHolds(memory, cells)
      && Captures(closures, cellOf, cells) && AllStand(heap, open, cellOf, cells, top) && Unique(cellOf)
    }

    /** The machine's variables are the cells of the reference semantics. */
    ghost predicate Valid()
      reads this
    {
      Inv(|cells.slots|) && stackTop == |cells.slots|
    }

    /** A machine about to run a function that has captured nothing, as closure 0. */
    constructor ()
      ensures Valid() && cells == START
    {
      hide Chain, Captures, StackHolds, AllStand;
      StartHolds();
      memory, stackTop, frames, closures, heap, openUpValues := [Obj(0)], 1, [Frame(0, 0)], [[]], [], None;
      open, cellOf, cells := [], [], START;
    }

    /** What a closure sees in one of its captured variables. */
    function ReadUpValue(u: nat): Value
      requires u < |heap| && (heap[u].location.Slot? ==> heap[u].location.i < |memory|)
      reads this
    {
      match heap[u].location
      case Slot(i) => memory[i]
      case Own => heap[u].closed
    }

    method PushValue(v: Value)
      requires Valid()
      modifies `memory, `stackTop, `cells
      ensures Valid() && cells == PushCell(old(cells), v)
    {
      hide Chain, StackHolds, Captures, AllStand;
      PushKeeps(memory, heap, open, closures, cellOf, cells, v);
      memory := if stackTop < |memory| then memory[stackTop := v] else memory + [v];
      stackTop := stackTop + 1;
      cells := PushCell(cells, v);
    }

    /** Searches the list for a live slot: `up` is the first up-value at or below it. */
    method FindUpValue(slot: nat) returns (prev: Option<nat>, up: Option<nat>, ghost k: nat)
      requires Chain(heap, openUpValues, open)
      ensures k <= |open| && up == At(open, k) && prev == if k == 0 then None else Some(open[k - 1])
      ensures up.Some? ==> up.value < |heap| && heap[up.value].location.Slot?
      ensures if up.Some? && heap[up.value].location == Slot(slot) then true else Place(heap, open, k, slot)
    {
      prev, up, k := None, openUpValues, 0;
      if open != [] { assert Link(heap, open, 0); }
      while up.Some? && heap[up.value].location.i > slot
        invariant k <= |open| && up == At(open, k) && prev == (if k == 0 then None else Some(open[k - 1]))
        invariant k < |open| ==> Link(heap, open, k)
        invariant forall j :: 0 <= j < k ==> Above(heap, open, j, slot)
        decreases |open| - k
      {
        assert Above(heap, open, k, slot);
        prev := up;
        up := heap[up.value].next;
        k := k + 1;
      }
    }

    /** Finds the up-value of a live slot, or makes one in its place in the list. */
    method CaptureUpValue(slot: nat) returns (u: nat)
      requires Valid() && slot < stackTop
      modifies `heap, `openUpValues, `open, `cellOf, `cells
      ensures Valid() && old(cellOf) <= cellOf
      ensures u < |cellOf| && cellOf[u] == cells.slots[slot]
      ensures cells == old(cells).(captured := old(cells).captured + {old(cells).slots[slot]})
    {
      hide StackHolds, Captures, AllStand, Chain, Unique;
      var prev, up;
      ghost var k;
      prev, up, k := FindUpValue(slot);
      MarkKeeps(memory, heap, open, closures, cellOf, cells, slot);
      ghost var marked := cells.(captured := cells.captured + {cells.slots[slot]});
      if up.Some? && heap[up.value].location == Slot(slot) {
        u := up.value;
        cells := marked;
        FoundStands(heap, open, cellOf, cells, u, slot);
        return;
      }
      SameLength(heap, open, cellOf, cells);
      u := |heap|;
      InsertKeeps(heap, openUpValues, open, k, slot, prev);
      InsertStands(heap, open, cellOf, marked, k, slot, prev, up);
      CapturesGrow(closures, cellOf, cells.slots[slot], marked);
      InsertUnique(memory, heap, openUpValues, open, cellOf, cells, k, slot);
      heap := heap + [UpValue(Slot(slot), Nil, up)];
      if prev.None? {
        openUpValues := Some(u);
      } else {
        heap := heap[prev.value := heap[prev.value].(next := Some(u))];
      }
      open := open[..k] + [u] + open[k..];
      cellOf := cellOf + [cells.slots[slot]];
      cells := marked;
    }

    method SetLocalSlot(slot: nat)
      requires Valid() && slot < stackTop && stackTop > 0
      modifies `memory, `cells
      ensures Valid()
      ensures cells == if old(cells).Top().Empty? then old(cells)
                       else old(cells).(log := old(cells).log + [Write(old(cells).slots[slot], old(cells).Top())])
    {
      hide Captures, AllStand, Chain, Unique, Last;
      var v := memory[stackTop - 1];
      if v.Empty? { return; }
      WriteSlotKeeps(memory, heap, open, closures, cellOf, cells, slot, v);
      memory := memory[slot := v];
      cells := cells.(log := cells.log + [Write(cells.slots[slot], v)]);
    }

    method GetUp(index: nat)
      requires Valid() && Enabled(cells, GetUpValue(index))
      modifies `memory, `stackTop, `cells
      ensures Valid() && cells == Next(old(cells), GetUpValue(index))
    {
      hide Captures, AllStand, Chain, Unique, Last, StackHolds;
      var u := Captured(index);
      PushValue(ReadUpValue(u));
    }

    /** The up-value of a captured variable of the running closure. */
    method Captured(index: nat) returns (u: nat)
      requires Valid() && Enabled(cells, GetUpValue(index))
      ensures u < |heap| == |cellOf| && cellOf[u] == cells.closures[cells.Running()][index]
      ensures Stands(heap, open, cellOf[u], cells, |cells.slots|, u)
      ensures heap[u].location.Slot? ==> heap[u].location.i < |cells.slots| <= |memory|
      ensures ReadUpValue(u) == Last(cells.log, cellOf[u])
    {
      hide Chain, Unique, Last;
      var c := if frames == [] then 0 else frames[|frames| - 1].closure;
      assert Stored(closures[c], cellOf, cells.closures[c]);
      u := closures[c][index];
      assert Stands(heap, open, cellOf[u], cells, |cells.slots|, u);
    }

    method SetUp(index: nat)
      requires Valid() && Enabled(cells, SetUpValue(index))
      modifies `memory, `heap, `cells
      ensures Valid() && cells == Next(old(cells), SetUpValue(index))
    {
      hide Captures, AllStand, Chain, Unique, Last, StackHolds;
      var v := Peek();
      if v.Empty? { return; }
      var u := Captured(index);
      ghost var cell := cellOf[u];
      if heap[u].location.Slot? {
        var i := heap[u].location.i;
        WriteSlotKeeps(memory, heap, open, closures, cellOf, cells, i, v);
        memory := memory[i := v];
      } else {
        WriteOwnKeeps(memory, heap, openUpValues, open, closures, cellOf, cells, u, v);
        heap := heap[u := heap[u].(closed := v)];
      }
      cells := cells.(log := cells.log + [Write(cell, v)]);
    }

    method Peek() returns (v: Value)
      requires Valid() && stackTop > 0
      ensures v == cells.Top()
    {
      hide Last;
      v := memory[stackTop - 1];
    }

    method CreateClosure(captures: seq<Descriptor>)
      requires Valid() && Enabled(cells, MakeClosure(captures))
      modifies `memory, `stackTop, `closures, `heap, `openUpValues, `open, `cellOf, `cells
      ensures Valid() && cells == Next(old(cells), MakeClosure(captures))
    {
      hide Captures, AllStand, Chain, Unique, Last, StackHolds;
      var self := |closures|;
      ClosureCount(closures, cellOf, cells);
      PushValue(Obj(self));
      ghost var t := cells;
      var base := if frames == [] then 0 else frames[|frames| - 1].base;
      var running := if frames == [] then 0 else frames[|frames| - 1].closure;
      var ups: seq<nat> := [];
      assert forall d :: d in captures ==> Found(t, d, |t.slots|) by {
        forall d | d in captures ensures Found(t, d, |t.slots|) { assert Found(old(cells), d, |old(cells).slots| + 1); }
      }
      assert cells == t.(captured := t.captured + LocalCells(t, captures[..0]));
      for i := 0 to |captures|
        invariant forall d :: d in captures ==> Found(t, d, |t.slots|)
        invariant Valid() && closures == old(closures) && |ups| == i
        invariant cells == t.(captured := t.captured + LocalCells(t, captures[..i]))
        invariant Stored(ups, cellOf, CellsOf(t, captures[..i]))
      {
        var d := captures[i];
        assert Found(t, d, |t.slots|);
        ghost var before := cellOf;
        var u;
        if d.isLocal {
          u := CaptureUpValue(base + d.index);
        } else {
          StoredIn(closures, cellOf, cells, running, d.index);
          u := closures[running][d.index];
        }
        OneMore(t, captures, i, ups, before, cellOf, u);
        ups := ups + [u];
      }
      assert captures[..|captures|] == captures;
      ClosureAdded(memory, heap, open, closures, cellOf, cells, ups, CellsOf(t, captures));
      closures := closures + [ups];
      cells := cells.(closures := cells.closures + [CellsOf(t, captures)]);
    }

    /** Closes every up-value of a slot from `last` on. */
    method CloseUpValues(last: nat)
      requires Inv(|cells.slots|) && last <= |cells.slots|
      modifies `heap, `openUpValues, `open
      ensures Inv(last) && Below(heap, open, last)
    {
      hide StackHolds, Captures, AllStand, Chain, Below;
      FewerSlots(heap, open, cellOf, cells, |cells.slots|, last);
      HeadIsListed(heap, openUpValues, open, last);
      while openUpValues.Some? && heap[openUpValues.value].location.i >= last
        invariant Inv(last) && Listed(heap, openUpValues, open)
        decreases |open|
      {
        var u := openUpValues.value;
        CloseKeeps(memory, heap, openUpValues, open, cellOf, cells, last);
        ghost var h := heap[u := UpValue(Own, memory[heap[u].location.i], heap[u].next)];
        heap := heap[u := heap[u].(closed := memory[heap[u].location.i])];
        heap := heap[u := heap[u].(location := Own)];
        assert heap == h;
        openUpValues := heap[u].next;
        open := open[1..];
        HeadIsListed(heap, openUpValues, open, last);
      }
      HeadIsListed(heap, openUpValues, open, last);
    }

    /** Slots from `n` on leave the stack; none of them has an open up-value. */
    method DropTo(n: nat)
      requires n <= |cells.slots| && Inv(n) && Below(heap, open, n)
      modifies `stackTop, `cells
      ensures Valid() && cells == Drop(old(cells), n)
    {
      hide StackHolds, Captures, AllStand, Chain, Below, Unique, Last;
      DropKeeps(memory, heap, open, closures, cellOf, cells, n);
      stackTop := n;
      cells := Drop(cells, n);
    }

    method PopSlot()
      requires Valid() && Enabled(cells, Pop)
      modifies `stackTop, `cells
      ensures Valid() && cells == Next(old(cells), Pop)
    {
      hide StackHolds, Captures, AllStand, Chain, Below, Unique, Last;
      FewerSlots(heap, open, cellOf, cells, |cells.slots|, |cells.slots| - 1);
      NoneAtTop(heap, openUpValues, open, cellOf, cells);
      DropTo(stackTop - 1);
    }

    /** A plain pop of a slot that is captured would go wrong: the variable's up-value keeps
        pointing at the slot, and whoever holds it then sees whatever is pushed there next. */
    method PopThenPush(u: nat, w: Value)
      requires Valid() && stackTop > 0 && u < |heap| && heap[u].location == Slot(stackTop - 1)
      modifies `memory, `stackTop
      ensures heap[u].location.i < |memory| && ReadUpValue(u) == w
      ensures cells == old(cells) && u < |cellOf| && Last(cells.log, cellOf[u]) == old(cells.Top())
    {
      hide Captures, Chain, Unique, Last;
      assert Stands(heap, open, cellOf[u], cells, |cells.slots|, u);
      stackTop := stackTop - 1;
      memory := if stackTop < |memory| then memory[stackTop := w] else memory + [w];
      stackTop := stackTop + 1;
    }

    method ReturnFromFrame()
      requires Valid() && Enabled(cells, Return)
      modifies `memory, `stackTop, `frames, `heap, `openUpValues, `open, `cells
      ensures Valid() && cells == Next(old(cells), Return)
    {
      hide StackHolds, Captures, AllStand, Chain, Below, Unique, Last;
      var result := Peek();
      stackTop := stackTop - 1;
      CloseUpValues(frames[|frames| - 1].base);
      DropTo(frames[|frames| - 1].base);
      FramesDrop(memory, heap, open, closures, cellOf, cells, cells.frames[..|cells.frames| - 1]);
      frames := frames[..|frames| - 1];
      cells := cells.(frames := cells.frames[..|cells.frames| - 1]);
      PushValue(result);
    }

    method EnterFrame(argCount: nat)
      requires Valid() && Enabled(cells, Call(argCount))
      modifies `frames, `cells
      ensures Valid() && cells == Next(old(cells), Call(argCount))
    {
      hide Captures, AllStand, Chain, Unique, Last;
      var base := stackTop - argCount - 1;
      var callee := memory[base].ref;
      FramesDrop(memory, heap, open, closures, cellOf, cells, cells.frames + [Frame(callee, base)]);
      frames := frames + [Frame(callee, base)];
      cells := cells.(frames := cells.frames + [Frame(callee, base)]);
    }

    /** One instruction: exactly the step of the reference semantics. */
    method Perform(op: Step) returns (seen: seq<Value>)
      requires Valid() && Enabled(cells, op)
      modifies this
      ensures Valid() && cells == Next(old(cells), op)
      ensures seen == if op.GetLocal? || op.GetUpValue? then [cells.Top()] else []
    {
      hide Captures, AllStand, Chain, Unique, Last, StackHolds, Below;
      seen := [];
      match op
      case Push(v) => PushValue(v);
      case Pop => PopSlot();
      case GetLocal(i) =>
        var v := ReadSlot(i);
        PushValue(v);
        v := Peek();
        seen := [v];
      case SetLocal(i) => SetLocalSlot((if frames == [] then 0 else frames[|frames| - 1].base) + i);
      case GetUpValue(i) =>
        GetUp(i);
        var v := Peek();
        seen := [v];
      case SetUpValue(i) => SetUp(i);
      case MakeClosure(captures) => CreateClosure(captures);
      case CloseUpValue =>
        CloseUpValues(stackTop - 1);
        DropTo(stackTop - 1);
      case Call(n) => EnterFrame(n);
      case Return => ReturnFromFrame();
    }

    method ReadSlot(i: nat) returns (v: Value)
      requires Valid() && Enabled(cells, GetLocal(i))
      ensures v == Last(cells.log, cells.slots[cells.Base() + i])
    {
      hide Captures, AllStand, Chain, Unique, Last;
      v := memory[(if frames == [] then 0 else frames[|frames| - 1].base) + i];
    }

    /** Over a whole run, everything read from a variable, by whichever closure, is what the
        reference semantics reads: the last value written to that variable by anyone. */
    method Execute(ops: seq<Step>) returns (seen: seq<Value>)
      requires Valid() && AllEnabled(cells, ops)
      modifies this
      ensures Valid() && seen == Observe(old(cells), ops).0 && cells == Observe(old(cells), ops).1
    {
      hide Captures, AllStand, Chain, Unique, Last, StackHolds, Below, Next, Enabled;
      seen := [];
      ghost var start := cells;
      ghost var rest := ops;
      assert [] + Observe(start, ops).0 == Observe(start, ops).0;
      for i := 0 to |ops|
        invariant Valid() && rest == ops[i..] && AllEnabled(cells, rest)
        invariant Observe(start, ops).0 == seen + Observe(cells, rest).0
        invariant Observe(start, ops).1 == Observe(cells, rest).1
      {
        assert rest[0] == ops[i] && rest[1..] == ops[i + 1..];
        ghost var s := cells;
        var v := Perform(ops[i]);
        assert seen + (v + Observe(cells, rest[1..]).0) == seen + v + Observe(cells, rest[1..]).0;
        seen := seen + v;
        rest := rest[1..];
      }
    }
  }

  /** In every reachable state at most one up-value points at any slot, and following the
      list visits the up-values from the top of the stack down. */
  lemma {:induction false} OneUpValuePerSlot(m: Machine, u: nat, v: nat)
    requires m.Valid() && u < |m.heap| && v < |m.heap|
    requires m.heap[u].location.Slot? && m.heap[v].location.Slot? && m.heap[u].location.i >= m.heap[v].location.i
    ensures m.heap[u].location == m.heap[v].location ==> u == v
    ensures exists j, k :: 0 <= j <= k < |m.open| && m.open[j] == u && m.open[k] == v
  {
    hide Last, StackHolds, Captures, Unique;
    assert Stands(m.heap, m.open, m.cellOf[u], m.cells, |m.cells.slots|, u);
    assert Stands(m.heap, m.open, m.cellOf[v], m.cells, |m.cells.slots|, v);
    var j :| 0 <= j < |m.open| && m.open[j] == u;
    var k :| 0 <= k < |m.open| && m.open[k] == v;
    Ordered(m.heap, m.openUpValues, m.open, j, k);
  }
}
