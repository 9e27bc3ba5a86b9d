/** The mark-sweep collector: a gray stack, a mark bit whose meaning flips after every
    collection, an intrusive list of all objects, and a table of strings that does not keep
    its keys alive. */
module Collector {
  import opened Basics
  import opened Values
  import Table

  datatype Slots = Slots(entries: seq<(Value, Value)>)

  /** What each kind of object refers to; `None` is a null pointer. A value refers to an
      object when it is one. */
  datatype Payload =
    | Module(values: Slots)
    | SwitchTable(table: Slots)
    | File(mode: Option<nat>, path: Option<nat>)
    | Dict(names: seq<Value>, items: Slots)
    | List(elements: seq<Value>)
    | BoundMethod(receiver: Value, method_: Option<nat>)
    | Class(name: Option<nat>, methods: Slots, properties: Slots, statics: Slots, initializer: Value, superclass: Option<nat>)
    | Closure(function_: Option<nat>, upValues: seq<Option<nat>>)
    | Function(name: Option<nat>, module_: Option<nat>, constants: seq<Value>)
    | Instance(klass: Option<nat>, properties: Slots)
    | UpValue(closed: Value)
    | Leaf
    | String

  datatype Frame = Frame(closure: Option<nat>, handlers: seq<Option<nat>>)

  datatype Roots = Roots(stack: seq<Value>, frames: seq<Frame>, openUpValues: seq<Option<nat>>, tables: seq<Slots>,
                         exceptionClass: Option<nat>, compilers: seq<Option<nat>>)

  // ----- references -----

  function PointerRefs(p: Option<nat>): set<nat> { if p.Some? then {p.value} else {} }

  function ValueRefs(v: Value): set<nat> { if v.Obj? then {v.ref} else {} }

  function ArrayRefs(vs: seq<Value>): set<nat> { set i | 0 <= i < |vs| && vs[i].Obj? :: vs[i].ref }

  function PointersRefs(ps: seq<Option<nat>>): set<nat> { set i | 0 <= i < |ps| && ps[i].Some? :: ps[i].value }

  function SlotsRefs(t: Slots): set<nat> {
    (set i | 0 <= i < |t.entries| && t.entries[i].0.Obj? :: t.entries[i].0.ref)
    + (set i | 0 <= i < |t.entries| && t.entries[i].1.Obj? :: t.entries[i].1.ref)
  }

  function TablesRefs(ts: seq<Slots>): set<nat> { set i, r | 0 <= i < |ts| && r in SlotsRefs(ts[i]) :: r }

  function FramesRefs(fs: seq<Frame>): set<nat> {
    set i, r | 0 <= i < |fs| && r in PointerRefs(fs[i].closure) + PointersRefs(fs[i].handlers) :: r
  }

  /** Everything an object refers to. */
  function Refs(p: Payload): set<nat> {
    match p
    case Module(t) => SlotsRefs(t)
    case SwitchTable(t) => SlotsRefs(t)
    case File(m, f) => PointerRefs(m) + PointerRefs(f)
    case Dict(ns, t) => ArrayRefs(ns) + SlotsRefs(t)
    case List(vs) => ArrayRefs(vs)
    case BoundMethod(v, m) => ValueRefs(v) + PointerRefs(m)
    case Class(n, ms, ps, ss, i, s) => PointerRefs(n) + SlotsRefs(ms) + SlotsRefs(ps) + SlotsRefs(ss) + ValueRefs(i) + PointerRefs(s)
    case Closure(f, us) => PointerRefs(f) + PointersRefs(us)
    case Function(n, m, cs) => PointerRefs(n) + PointerRefs(m) + ArrayRefs(cs)
    case Instance(k, ps) => PointerRefs(k) + SlotsRefs(ps)
    case UpValue(v) => ValueRefs(v)
    case Leaf => {}
    case String => {}
  }

  function RootRefs(r: Roots): set<nat> {
    ArrayRefs(r.stack) + FramesRefs(r.frames) + PointersRefs(r.openUpValues) + TablesRefs(r.tables)
    + PointerRefs(r.exceptionClass) + PointersRefs(r.compilers)
  }

  // ----- what a program can read -----

  /** A field of an object. An entry of a table has two sides, its key and its value. */
  datatype Field =
    | ModuleEntry(i: nat, key: bool)
    | SwitchEntry(i: nat, key: bool)
    | FileMode | FilePath
    | DictName(i: nat) | DictEntry(i: nat, key: bool)
    | Element(i: nat)
    | Receiver | BoundFunction
    | ClassName | MethodEntry(i: nat, key: bool) | PropertyEntry(i: nat, key: bool) | StaticEntry(i: nat, key: bool)
    | Initializer | Superclass
    | ClosureFunction | Captured(i: nat)
    | FunctionName | FunctionModule | Constant(i: nat)
    | InstanceClass | InstanceEntry(i: nat, key: bool)
    | ClosedValue

  function Pointer(p: Option<nat>): Value { if p.Some? then Obj(p.value) else Nil }

  function Item(vs: seq<Value>, i: nat): Value { if i < |vs| then vs[i] else Nil }

  function PointerItem(ps: seq<Option<nat>>, i: nat): Value { if i < |ps| then Pointer(ps[i]) else Nil }

  function Side(t: Slots, i: nat, key: bool): Value {
    if i >= |t.entries| then Nil else if key then t.entries[i].0 else t.entries[i].1
  }

  /** What a field holds; nil if the object has no such field. */
  function Fetch(p: Payload, f: Field): Value {
    match f
    case ModuleEntry(i, key) => if p.Module? then Side(p.values, i, key) else Nil
    case SwitchEntry(i, key) => if p.SwitchTable? then Side(p.table, i, key) else Nil
    case FileMode => if p.File? then Pointer(p.mode) else Nil
    case FilePath => if p.File? then Pointer(p.path) else Nil
    case DictName(i) => if p.Dict? then Item(p.names, i) else Nil
    case DictEntry(i, key) => if p.Dict? then Side(p.items, i, key) else Nil
    case Element(i) => if p.List? then Item(p.elements, i) else Nil
    case Receiver => if p.BoundMethod? then p.receiver else Nil
    case BoundFunction => if p.BoundMethod? then Pointer(p.method_) else Nil
    case ClassName => if p.Class? then Pointer(p.name) else Nil
    case MethodEntry(i, key) => if p.Class? then Side(p.methods, i, key) else Nil
    case PropertyEntry(i, key) => if p.Class? then Side(p.properties, i, key) else Nil
    case StaticEntry(i, key) => if p.Class? then Side(p.statics, i, key) else Nil
    case Initializer => if p.Class? then p.initializer else Nil
    case Superclass => if p.Class? then Pointer(p.superclass) else Nil
    case ClosureFunction => if p.Closure? then Pointer(p.function_) else Nil
    case Captured(i) => if p.Closure? then PointerItem(p.upValues, i) else Nil
    case FunctionName => if p.Function? then Pointer(p.name) else Nil
    case FunctionModule => if p.Function? then Pointer(p.module_) else Nil
    case Constant(i) => if p.Function? then Item(p.constants, i) else Nil
    case InstanceClass => if p.Instance? then Pointer(p.klass) else Nil
    case InstanceEntry(i, key) => if p.Instance? then Side(p.properties, i, key) else Nil
    case ClosedValue => if p.UpValue? then p.closed else Nil
  }

  /** A place among the roots. */
  datatype Place =
    | StackSlot(i: nat)
    | FrameClosure(i: nat) | HandlerClass(i: nat, j: nat)
    | OpenUpValue(i: nat)
    | TableEntry(t: nat, i: nat, key: bool)
    | ExceptionClass
    | CompilerFunction(i: nat)

  function FetchRoot(r: Roots, f: Place): Value {
    match f
    case StackSlot(i) => Item(r.stack, i)
    case FrameClosure(i) => if i < |r.frames| then Pointer(r.frames[i].closure) else Nil
    case HandlerClass(i, j) => if i < |r.frames| then PointerItem(r.frames[i].handlers, j) else Nil
    case OpenUpValue(i) => PointerItem(r.openUpValues, i)
    case TableEntry(t, i, key) => if t < |r.tables| then Side(r.tables[t], i, key) else Nil
    case ExceptionClass => Pointer(r.exceptionClass)
    case CompilerFunction(i) => PointerItem(r.compilers, i)
  }

  lemma {:induction false} SideRefs(t: Slots, r: nat)
    ensures r in SlotsRefs(t) <==> exists i: nat, key: bool :: Side(t, i, key) == Obj(r)
  {
    if i :| 0 <= i < |t.entries| && t.entries[i].0 == Obj(r) { assert Side(t, i, true) == Obj(r); }
    if i :| 0 <= i < |t.entries| && t.entries[i].1 == Obj(r) { assert Side(t, i, false) == Obj(r); }
  }

  lemma {:induction false} ItemRefs(vs: seq<Value>, r: nat)
    ensures r in ArrayRefs(vs) <==> exists i: nat :: Item(vs, i) == Obj(r)
  {
    if i :| 0 <= i < |vs| && vs[i] == Obj(r) { assert Item(vs, i) == Obj(r); }
  }

  lemma {:induction false} PointerItemRefs(ps: seq<Option<nat>>, r: nat)
    ensures r in PointersRefs(ps) <==> exists i: nat :: PointerItem(ps, i) == Obj(r)
  {
    if i :| 0 <= i < |ps| && ps[i] == Some(r) { assert PointerItem(ps, i) == Obj(r); }
  }

  lemma {:induction false} FieldsAreRefs(p: Payload, f: Field, r: nat)
    requires Fetch(p, f) == Obj(r)
    ensures r in Refs(p)
  {
    hide SlotsRefs, ArrayRefs, PointersRefs, Side, Item, PointerItem;
    match p
    case Module(t) => SideRefs(t, r);
    case SwitchTable(t) => SideRefs(t, r);
    case File(_, _) =>
    case Dict(ns, t) => ItemRefs(ns, r); SideRefs(t, r);
    case List(vs) => ItemRefs(vs, r);
    case BoundMethod(_, _) =>
    case Class(_, ms, ps, ss, _, _) => SideRefs(ms, r); SideRefs(ps, r); SideRefs(ss, r);
    case Closure(_, us) => PointerItemRefs(us, r);
    case Function(_, _, cs) => ItemRefs(cs, r);
    case Instance(_, ps) => SideRefs(ps, r);
    case UpValue(_) =>
    case Leaf =>
    case String =>
  }

  lemma {:induction false} FieldOf(p: Payload, r: nat) returns (f: Field)
    requires r in Refs(p)
    ensures Fetch(p, f) == Obj(r)
  {
    hide SlotsRefs, ArrayRefs, PointersRefs, Side, Item, PointerItem;
    match p
    case Module(t) =>
      SideRefs(t, r);
      var i: nat, key: bool :| Side(t, i, key) == Obj(r);
      f := ModuleEntry(i, key);
    case SwitchTable(t) =>
      SideRefs(t, r);
      var i: nat, key: bool :| Side(t, i, key) == Obj(r);
      f := SwitchEntry(i, key);
    case File(m, _) => f := if m == Some(r) then FileMode else FilePath;
    case Dict(ns, t) =>
      ItemRefs(ns, r);
      SideRefs(t, r);
      if i: nat :| Item(ns, i) == Obj(r) { f := DictName(i); }
      else { var i: nat, key: bool :| Side(t, i, key) == Obj(r); f := DictEntry(i, key); }
    case List(vs) =>
      ItemRefs(vs, r);
      var i: nat :| Item(vs, i) == Obj(r);
      f := Element(i);
    case BoundMethod(v, _) => f := if v == Obj(r) then Receiver else BoundFunction;
    case Class(_, _, _, _, _, _) => f := ClassFieldOf(p, r);
    case Closure(g, us) =>
      PointerItemRefs(us, r);
      if g == Some(r) { f := ClosureFunction; } else { var i: nat :| PointerItem(us, i) == Obj(r); f := Captured(i); }
    case Function(n, m, cs) =>
      ItemRefs(cs, r);
      if n == Some(r) { f := FunctionName; }
      else if m == Some(r) { f := FunctionModule; }
      else { var i: nat :| Item(cs, i) == Obj(r); f := Constant(i); }
    case Instance(k, ps) =>
      SideRefs(ps, r);
      if k == Some(r) { f := InstanceClass; } else { var i: nat, key: bool :| Side(ps, i, key) == Obj(r); f := InstanceEntry(i, key); }
    case UpValue(_) => f := ClosedValue;
  }

  lemma {:induction false} ClassFieldOf(p: Payload, r: nat) returns (f: Field)
    requires p.Class? && r in Refs(p)
    ensures Fetch(p, f) == Obj(r)
  {
    hide SlotsRefs, Side;
    SideRefs(p.methods, r);
    SideRefs(p.properties, r);
    SideRefs(p.statics, r);
    if p.name == Some(r) { f := ClassName; }
    else if p.initializer == Obj(r) { f := Initializer; }
    else if p.superclass == Some(r) { f := Superclass; }
    else if i: nat, key: bool :| Side(p.methods, i, key) == Obj(r) { f := MethodEntry(i, key); }
    else if i: nat, key: bool :| Side(p.properties, i, key) == Obj(r) { f := PropertyEntry(i, key); }
    else { var i: nat, key: bool :| Side(p.statics, i, key) == Obj(r); f := StaticEntry(i, key); }
  }

  /** The roots refer to exactly what their places hold. */
  lemma {:induction false} RootsArePlaces(rs: Roots, r: nat)
    ensures r in RootRefs(rs) <==> exists f :: FetchRoot(rs, f) == Obj(r)
  {
    hide RootRefs;
    if f :| FetchRoot(rs, f) == Obj(r) { PlacesAreRefs(rs, f, r); }
    if r in RootRefs(rs) { var f := PlaceOf(rs, r); }
  }

  lemma {:induction false} PlacesAreRefs(rs: Roots, f: Place, r: nat)
    requires FetchRoot(rs, f) == Obj(r)
    ensures r in RootRefs(rs)
  {
    hide SlotsRefs, ArrayRefs, PointersRefs, Side, Item, PointerItem;
    ItemRefs(rs.stack, r);
    PointerItemRefs(rs.openUpValues, r);
    PointerItemRefs(rs.compilers, r);
    match f
    case HandlerClass(i, _) =>
      PointerItemRefs(rs.frames[i].handlers, r);
      assert r in PointerRefs(rs.frames[i].closure) + PointersRefs(rs.frames[i].handlers);
    case TableEntry(t, _, _) => if t < |rs.tables| { SideRefs(rs.tables[t], r); }
    case FrameClosure(i) => assert r in PointerRefs(rs.frames[i].closure) + PointersRefs(rs.frames[i].handlers);
    case _ =>
  }

  lemma {:induction false} PlaceOf(rs: Roots, r: nat) returns (f: Place)
    requires r in RootRefs(rs)
    ensures FetchRoot(rs, f) == Obj(r)
  {
    hide SlotsRefs, ArrayRefs, PointersRefs, Side, Item, PointerItem;
    ItemRefs(rs.stack, r);
    PointerItemRefs(rs.openUpValues, r);
    PointerItemRefs(rs.compilers, r);
    if i: nat :| Item(rs.stack, i) == Obj(r) { f := StackSlot(i); }
    else if r in FramesRefs(rs.frames) { f := FramePlaceOf(rs, r); }
    else if i: nat :| PointerItem(rs.openUpValues, i) == Obj(r) { f := OpenUpValue(i); }
    else if r in TablesRefs(rs.tables) {
      var t :| 0 <= t < |rs.tables| && r in SlotsRefs(rs.tables[t]);
      SideRefs(rs.tables[t], r);
      var i: nat, key: bool :| Side(rs.tables[t], i, key) == Obj(r);
      f := TableEntry(t, i, key);
    }
    else if rs.exceptionClass == Some(r) { f := ExceptionClass; }
    else { var i: nat :| PointerItem(rs.compilers, i) == Obj(r); f := CompilerFunction(i); }
  }

  lemma {:induction false} FramePlaceOf(rs: Roots, r: nat) returns (f: Place)
    requires r in FramesRefs(rs.frames)
    ensures FetchRoot(rs, f) == Obj(r)
  {
    hide PointersRefs, PointerItem;
    var i :| 0 <= i < |rs.frames| && r in PointerRefs(rs.frames[i].closure) + PointersRefs(rs.frames[i].handlers);
    PointerItemRefs(rs.frames[i].handlers, r);
    if rs.frames[i].closure == Some(r) { f := FrameClosure(i); }
    else { var j: nat :| PointerItem(rs.frames[i].handlers, j) == Obj(r); f := HandlerClass(i, j); }
  }

  /** An object refers to exactly what its fields hold. */
  lemma {:induction false} RefsAreFields(p: Payload, r: nat)
    ensures r in Refs(p) <==> exists f :: Fetch(p, f) == Obj(r)
  {
    hide Refs;
    if f :| Fetch(p, f) == Obj(r) { FieldsAreRefs(p, f, r); }
    if r in Refs(p) { var f := FieldOf(p, r); }
  }

  // ----- reachability -----

  type Store = map<nat, Payload>

  /** A chain of references, each from one object to the next. */
  ghost predicate Path(store: Store, p: seq<nat>) {
    && p != [] && (forall i :: 0 <= i < |p| ==> p[i] in store)
    && forall i :: 0 <= i < |p| - 1 ==> p[i + 1] in Refs(store[p[i]])
  }

  ghost predicate Leads(store: Store, from: set<nat>, p: seq<nat>, r: nat) {
    Path(store, p) && p[0] in from && p[|p| - 1] == r
  }

  ghost predicate Reachable(store: Store, from: set<nat>, r: nat) {
    exists p :: Leads(store, from, p, r)
  }

  /** No reference dangles. */
  ghost predicate Closed(store: Store, from: set<nat>) {
    from <= store.Keys && forall r :: r in store ==> Refs(store[r]) <= store.Keys
  }

  lemma {:induction false} RootReachable(store: Store, from: set<nat>, r: nat)
    requires r in from && r in store
    ensures Reachable(store, from, r)
  {
    assert Leads(store, from, [r], r);
  }

  lemma {:induction false} StepReachable(store: Store, from: set<nat>, r: nat, e: nat)
    requires Reachable(store, from, r) && r in store && e in Refs(store[r]) && e in store
    ensures Reachable(store, from, e)
  {
    var p :| Leads(store, from, p, r);
    assert Leads(store, from, p + [e], e);
  }

  /** A set that holds the roots and whatever its members refer to holds all that is reachable. */
  lemma {:induction false} ClosedHoldsReachable(store: Store, from: set<nat>, s: set<nat>, r: nat)
    requires from <= s && (forall x :: x in s && x in store ==> Refs(store[x]) <= s) && Reachable(store, from, r)
    ensures r in s && r in store
  {
    var p :| Leads(store, from, p, r);
    PathStays(store, s, p, |p| - 1);
  }

  lemma {:induction false} PathStays(store: Store, s: set<nat>, p: seq<nat>, n: nat)
    requires Path(store, p) && n < |p| && p[0] in s && forall x :: x in s && x in store ==> Refs(store[x]) <= s
    ensures p[n] in s
  {
    if n > 0 {
      PathStays(store, s, p, n - 1);
      assert p[n - 1 + 1] in Refs(store[p[n - 1]]);
    }
  }

  // ----- the list of all objects -----

  ghost function At(list: seq<nat>, k: nat): Option<nat> {
    if k < |list| then Some(list[k]) else None
  }

  ghost predicate Link(next: map<nat, Option<nat>>, list: seq<nat>, k: nat) {
    k < |list| && list[k] in next && next[list[k]] == At(list, k + 1)
  }

  /** Following `next` from `head` runs through `list`. */
  ghost predicate Linked(next: map<nat, Option<nat>>, head: Option<nat>, list: seq<nat>) {
    && head == At(list, 0)
    && (forall k :: 0 <= k < |list| ==> Link(next, list, k))
    && (forall j, k :: 0 <= j < k < |list| ==> list[j] != list[k])
  }

  /** The members of `list` that are in `s`, in order. */
  function Kept(list: seq<nat>, s: set<nat>): (r: seq<nat>)
    ensures forall x :: x in r <==> x in list && x in s
  {
    if list == [] then [] else
      var front := Kept(list[..|list| - 1], s);
      if list[|list| - 1] in s then front + [list[|list| - 1]] else front
  }

  // ----- the collector -----

  ghost function Colored(marks: map<nat, bool>, color: bool): set<nat> {
    set r | r in marks && marks[r] == color
  }

  ghost predicate Within(gray: seq<nat>, s: set<nat>) {
    forall i :: 0 <= i < |gray| ==> gray[i] in s
  }

  /** Marking has gone from `marks` to `marks'`: nothing was unmarked, and whatever was newly
      marked waits on the gray stack. */
  ghost predicate Advanced(marks: map<nat, bool>, gray: seq<nat>, marks': map<nat, bool>, gray': seq<nat>, color: bool) {
    && marks'.Keys == marks.Keys && Colored(marks, color) <= Colored(marks', color) && gray <= gray'
    && (Colored(marks', color) == Colored(marks, color) ==> gray' == gray)
    && forall r :: r in Colored(marks', color) && r !in Colored(marks, color) ==> r in gray'
  }

  lemma {:induction false} AdvancedTrans(m0: map<nat, bool>, g0: seq<nat>, m1: map<nat, bool>, g1: seq<nat>,
                                         m2: map<nat, bool>, g2: seq<nat>, color: bool)
    requires Advanced(m0, g0, m1, g1, color) && Advanced(m1, g1, m2, g2, color)
    ensures Advanced(m0, g0, m2, g2, color)
  {
    forall r | r in Colored(m2, color) && r !in Colored(m0, color) ensures r in g2 {
      if r in g1 { var i :| 0 <= i < |g1| && g1[i] == r; assert g2[i] == r; }
    }
  }

  class Heap {
    var store: Store
    var mark: map<nat, bool>
    var next: map<nat, Option<nat>>
    var objects: Option<nat>
    var grayStack: seq<nat>
    var markValue: bool
    var roots: Roots
    const strings: Table.HashTable
    ghost var list: seq<nat>

    /** White between collections, each listed object allocated, nothing dangling. */
    ghost predicate Valid()
      reads this, strings
    {
      && Listed() && grayStack == [] && Closed(store, RootRefs(roots)) && Marked() == {}
      && strings.Valid() && forall k :: k in strings.contents ==> k.Obj? && k.ref in store
    }

    ghost predicate Listed()
      reads this
    {
      && Linked(next, objects, list) && mark.Keys == store.Keys && next.Keys == store.Keys
      && forall r :: r in store <==> r in list
    }

    constructor (hash: Value -> nat)
      ensures Valid() && store == map[] && list == [] && fresh(strings)
      ensures roots == Roots([], [], [], [], None, []) && strings.contents == map[]
    {
      store, mark, next, objects, grayStack, markValue := map[], map[], map[], None, [], true;
      roots, list := Roots([], [], [], [], None, []), [];
      strings := new Table.HashTable(hash);
    }

    ghost function Marked(): set<nat>
      reads this
    {
      Colored(mark, markValue)
    }

    /** Only reachable objects have been marked so far. */
    ghost predicate Marking()
      reads this
    {
      && mark.Keys == store.Keys && Closed(store, RootRefs(roots)) && Within(grayStack, Marked())
      && forall r :: r in Marked() ==> Reachable(store, RootRefs(roots), r)
    }

    // Each of the following goes on with marking that began at `m0` and `g0`.

    method MarkObject(o: Option<nat>, ghost m0: map<nat, bool>, ghost g0: seq<nat>)
      requires Marking() && Advanced(m0, g0, mark, grayStack, markValue)
      requires forall r :: r in PointerRefs(o) ==> r in store && Reachable(store, RootRefs(roots), r)
      modifies `mark, `grayStack
      ensures Marking() && Advanced(m0, g0, mark, grayStack, markValue)
      ensures old(Marked()) + PointerRefs(o) <= Marked()
    {
      hide Closed, Reachable, Refs, RootRefs;
      if o.None? { return; }
      if mark[o.value] == markValue { return; }
      ghost var m1, g1 := mark, grayStack;
      mark := mark[o.value := markValue];
      grayStack := grayStack + [o.value];
      assert grayStack[|grayStack| - 1] == o.value;
      AdvancedTrans(m0, g0, m1, g1, mark, grayStack, markValue);
    }

    method MarkValue(v: Value, ghost m0: map<nat, bool>, ghost g0: seq<nat>)
      requires Marking() && Advanced(m0, g0, mark, grayStack, markValue)
      requires forall r :: r in ValueRefs(v) ==> r in store && Reachable(store, RootRefs(roots), r)
      modifies `mark, `grayStack
      ensures Marking() && Advanced(m0, g0, mark, grayStack, markValue)
      ensures old(Marked()) + ValueRefs(v) <= Marked()
    {
      hide Marking, Reachable, Advanced, Refs, RootRefs;
      if v.Obj? { MarkObject(Some(v.ref), m0, g0); }
    }

    method MarkArray(vs: seq<Value>, ghost m0: map<nat, bool>, ghost g0: seq<nat>)
      requires Marking() && Advanced(m0, g0, mark, grayStack, markValue)
      requires forall r :: r in ArrayRefs(vs) ==> r in store && Reachable(store, RootRefs(roots), r)
      modifies `mark, `grayStack
      ensures Marking() && Advanced(m0, g0, mark, grayStack, markValue)
      ensures old(Marked()) + ArrayRefs(vs) <= Marked()
    {
      hide Marking, Reachable, Advanced, Refs, RootRefs, Colored;
      for i := 0 to |vs|
        invariant Marking() && Advanced(m0, g0, mark, grayStack, markValue) && old(Marked()) <= Marked()
        invariant forall j :: 0 <= j < i ==> ValueRefs(vs[j]) <= Marked()
      {
        assert forall r :: r in ValueRefs(vs[i]) ==> r in ArrayRefs(vs);
        MarkValue(vs[i], m0, g0);
      }
    }

    method MarkPointers(ps: seq<Option<nat>>, ghost m0: map<nat, bool>, ghost g0: seq<nat>)
      requires Marking() && Advanced(m0, g0, mark, grayStack, markValue)
      requires forall r :: r in PointersRefs(ps) ==> r in store && Reachable(store, RootRefs(roots), r)
      modifies `mark, `grayStack
      ensures Marking() && Advanced(m0, g0, mark, grayStack, markValue)
      ensures old(Marked()) + PointersRefs(ps) <= Marked()
    {
      hide Marking, Reachable, Advanced, Refs, RootRefs, Colored;
      for i := 0 to |ps|
        invariant Marking() && Advanced(m0, g0, mark, grayStack, markValue) && old(Marked()) <= Marked()
        invariant forall j :: 0 <= j < i ==> PointerRefs(ps[j]) <= Marked()
      {
        assert forall r :: r in PointerRefs(ps[i]) ==> r in PointersRefs(ps);
        MarkObject(ps[i], m0, g0);
      }
    }

    method MarkTable(t: Slots, ghost m0: map<nat, bool>, ghost g0: seq<nat>)
      requires Marking() && Advanced(m0, g0, mark, grayStack, markValue)
      requires forall r :: r in SlotsRefs(t) ==> r in store && Reachable(store, RootRefs(roots), r)
      modifies `mark, `grayStack
      ensures Marking() && Advanced(m0, g0, mark, grayStack, markValue)
      ensures old(Marked()) + SlotsRefs(t) <= Marked()
    {
      hide Marking, Reachable, Advanced, Refs, RootRefs, Colored;
      for i := 0 to |t.entries|
        invariant Marking() && Advanced(m0, g0, mark, grayStack, markValue) && old(Marked()) <= Marked()
        invariant forall j :: 0 <= j < i ==> ValueRefs(t.entries[j].0) + ValueRefs(t.entries[j].1) <= Marked()
      {
        assert forall r :: r in ValueRefs(t.entries[i].0) || r in ValueRefs(t.entries[i].1) ==> r in SlotsRefs(t);
        MarkValue(t.entries[i].0, m0, g0);
        MarkValue(t.entries[i].1, m0, g0);
      }
    }

    /** Marks whatever an object refers to. */
    method BlackenObject(o: nat)
      requires Marking() && o in Marked()
      modifies `mark, `grayStack
      ensures Marking() && Advanced(old(mark), old(grayStack), mark, grayStack, markValue)
      ensures old(Marked()) + Refs(store[o]) <= Marked()
    {
      hide Reachable, SlotsRefs, ArrayRefs, PointersRefs, PointerRefs, ValueRefs, RootRefs, Advanced, Within;
      RefsReachable(store, RootRefs(roots), o);
      ghost var m, g := mark, grayStack;
      AdvancedSelf(mark, grayStack, markValue);
      match store[o]
      case Module(t) => MarkTable(t, m, g);
      case SwitchTable(t) => MarkTable(t, m, g);
      case File(mode, path) =>
        MarkObject(mode, m, g);
        MarkObject(path, m, g);
      case Dict(ns, t) =>
        MarkArray(ns, m, g);
        MarkTable(t, m, g);
      case List(vs) => MarkArray(vs, m, g);
      case BoundMethod(v, f) =>
        MarkValue(v, m, g);
        MarkObject(f, m, g);
      case Class(n, ms, ps, ss, i, sup) =>
        MarkObject(n, m, g);
        MarkTable(ms, m, g);
        MarkTable(ps, m, g);
        MarkTable(ss, m, g);
        MarkValue(i, m, g);
        MarkObject(sup, m, g);
      case Closure(f, us) =>
        MarkObject(f, m, g);
        MarkPointers(us, m, g);
      case Function(n, f, cs) =>
        MarkObject(n, m, g);
        MarkObject(f, m, g);
        MarkArray(cs, m, g);
      case Instance(k, ps) =>
        MarkObject(k, m, g);
        MarkTable(ps, m, g);
      case UpValue(v) => MarkValue(v, m, g);
      case Leaf =>
        PointerToSelf(o);
        MarkObject(Some(o), m, g);
      case String =>
    }

    method MarkFrames(frames: seq<Frame>, ghost m0: map<nat, bool>, ghost g0: seq<nat>)
      requires Marking() && Advanced(m0, g0, mark, grayStack, markValue)
      requires forall r :: r in FramesRefs(frames) ==> r in store && Reachable(store, RootRefs(roots), r)
      modifies `mark, `grayStack
      ensures Marking() && Advanced(m0, g0, mark, grayStack, markValue)
      ensures old(Marked()) + FramesRefs(frames) <= Marked()
    {
      hide Marking, Reachable, Advanced, Refs, RootRefs, Colored, PointerRefs, PointersRefs;
      for i := 0 to |frames|
        invariant Marking() && Advanced(m0, g0, mark, grayStack, markValue) && old(Marked()) <= Marked()
        invariant forall j :: 0 <= j < i ==> PointerRefs(frames[j].closure) + PointersRefs(frames[j].handlers) <= Marked()
      {
        assert forall r :: r in PointerRefs(frames[i].closure) + PointersRefs(frames[i].handlers) ==> r in FramesRefs(frames);
        MarkObject(frames[i].closure, m0, g0);
        MarkPointers(frames[i].handlers, m0, g0);
      }
    }

    method MarkTables(tables: seq<Slots>, ghost m0: map<nat, bool>, ghost g0: seq<nat>)
      requires Marking() && Advanced(m0, g0, mark, grayStack, markValue)
      requires forall r :: r in TablesRefs(tables) ==> r in store && Reachable(store, RootRefs(roots), r)
      modifies `mark, `grayStack
      ensures Marking() && Advanced(m0, g0, mark, grayStack, markValue)
      ensures old(Marked()) + TablesRefs(tables) <= Marked()
    {
      hide Marking, Reachable, Advanced, Refs, RootRefs, Colored, SlotsRefs;
      for i := 0 to |tables|
        invariant Marking() && Advanced(m0, g0, mark, grayStack, markValue) && old(Marked()) <= Marked()
        invariant forall j :: 0 <= j < i ==> SlotsRefs(tables[j]) <= Marked()
      {
        assert forall r :: r in SlotsRefs(tables[i]) ==> r in TablesRefs(tables);
        MarkTable(tables[i], m0, g0);
      }
    }

    method MarkRoots()
      requires Marking() && grayStack == [] && Marked() == {}
      modifies `mark, `grayStack
      ensures Marking() && RootRefs(roots) <= Marked()
      ensures forall r :: r in Marked() ==> r in grayStack
    {
      hide Reachable, SlotsRefs, ArrayRefs, PointersRefs, PointerRefs, FramesRefs, TablesRefs, Refs, Advanced, Within, Colored;
      RootsReachable(store, RootRefs(roots));
      ghost var m, g := mark, grayStack;
      AdvancedSelf(mark, grayStack, markValue);
      MarkArray(roots.stack, m, g);
      MarkFrames(roots.frames, m, g);
      MarkPointers(roots.openUpValues, m, g);
      MarkTables(roots.tables, m, g);
      MarkObject(roots.exceptionClass, m, g);
      MarkPointers(roots.compilers, m, g);
      AllGray(m, g, mark, grayStack, markValue);
    }

    /** Every marked object is gray or has all it refers to marked. */
    ghost predicate Traced()
      requires mark.Keys == store.Keys
      reads this
    {
      forall r :: r in Marked() && r !in grayStack ==> Refs(store[r]) <= Marked()
    }

    /** Blackens the newest gray object: something new gets marked, or one fewer is gray. */
    method TraceOne()
      requires Marking() && grayStack != [] && Traced()
      modifies `mark, `grayStack
      ensures Marking() && mark.Keys == old(mark.Keys) && Traced() && old(Marked()) <= Marked()
      ensures var before, after := store.Keys - old(Marked()), store.Keys - Marked();
              |after| < |before| || (|after| == |before| && |grayStack| < |old(grayStack)|)
    {
      hide Reachable, Refs, RootRefs, Closed, Advanced;
      var o := grayStack[|grayStack| - 1];
      ghost var gray, m := grayStack, mark;
      grayStack := grayStack[..|grayStack| - 1];
      ghost var left := grayStack;
      assert gray == left + [o];
      BlackenObject(o);
      Turn(store, m, left, mark, grayStack, markValue, gray, o);
      AdvancedMeans(m, left, mark, grayStack, markValue);
    }

    /** Blackens gray objects until none is left; then exactly the reachable ones are marked. */
    method TraceReferences()
      requires Marking() && RootRefs(roots) <= Marked() && forall r :: r in Marked() ==> r in grayStack
      modifies `mark, `grayStack
      ensures grayStack == [] && mark.Keys == old(mark.Keys)
      ensures forall r :: r in Marked() <==> Reachable(store, RootRefs(roots), r)
    {
      hide Reachable, Refs, RootRefs, Closed, Colored;
      while |grayStack| > 0
        invariant Marking() && RootRefs(roots) <= Marked() && mark.Keys == old(mark.Keys) && Traced()
        decreases |store.Keys - Marked()|, |grayStack|
      {
        TraceOne();
      }
      forall r | Reachable(store, RootRefs(roots), r) ensures r in Marked() {
        ClosedHoldsReachable(store, RootRefs(roots), Marked(), r);
      }
    }

    /** Takes `o` out of the list, after `previous`, and frees it. */
    method FreeObject(previous: Option<nat>, o: nat, following: Option<nat>, ghost kept: seq<nat>, ghost rest: seq<nat>)
      requires Listed() && list == kept + ([o] + rest) && following == At(rest, 0)
      requires previous == if kept == [] then None else Some(kept[|kept| - 1])
      modifies `store, `mark, `next, `objects, `list
      ensures Listed() && list == kept + rest
      ensures store == old(store) - {o} && mark == old(mark) - {o}
    {
      hide Linked, At;
      Unlink(next, objects, kept, o, rest);
      NextOf(next, objects, list, kept, [o] + rest);
      if previous.Some? {
        next := next[previous.value := following];
      } else {
        objects := following;
      }
      store, mark, next := store - {o}, mark - {o}, next - {o};
      list := kept + rest;
    }

    /** Unlinks and frees every object that is not marked. */
    method Sweep()
      requires Listed()
      modifies `store, `mark, `next, `objects, `list
      ensures Listed() && list == Kept(old(list), old(Marked()))
      ensures store == map r | r in old(store) && r in old(Marked()) :: old(store)[r]
      ensures mark == map r | r in old(mark) && r in old(Marked()) :: old(mark)[r]
    {
      hide Linked, Kept, Half, Survives, Colored;
      var previous: Option<nat> := None;
      var object_ := objects;
      ghost var all, live, kept, rest := list, Marked(), [], list;
      HeadOf(next, objects, list);
      SweepStarts(all, live, store, mark);
      ghost var i := 0;
      while object_.Some?
        invariant i <= |all| && Half(all, i, live, list, kept, rest) && Listed() && object_ == At(rest, 0)
        invariant previous == if kept == [] then None else Some(kept[|kept| - 1])
        invariant Survives(old(store), store, live, all[..i]) && Survives(old(mark), mark, live, all[..i])
        decreases |rest|
      {
        var o := object_.value;
        HalfNext(all, i, live, list, kept, rest);
        NextOf(next, objects, list, kept, rest);
        object_ := next[o];
        SurvivesNext(old(store), store, live, all, i);
        SurvivesNext(old(mark), mark, live, all, i);
        ColorOf(old(mark), mark, live, all[..i], markValue, o);
        if mark[o] == markValue {
          previous := Some(o);
          kept := kept + [o];
        } else {
          FreeObject(previous, o, object_, kept, rest[1..]);
        }
        rest := rest[1..];
        i := i + 1;
      }
      SweepEnds(all, i, live, list, kept, rest);
      AllSwept(old(store), store, live, all);
      AllSwept(old(mark), mark, live, all);
    }

    /** Marks exactly what the roots reach. */
    method MarkLive()
      requires mark.Keys == store.Keys && Closed(store, RootRefs(roots)) && grayStack == [] && Marked() == {}
      modifies `mark, `grayStack
      ensures grayStack == [] && mark.Keys == store.Keys && Marked() == ReachableSet(store, RootRefs(roots))
    {
      hide Reachable, RootRefs, Refs, Closed;
      MarkRoots();
      TraceReferences();
      MarkedIsLive(store, RootRefs(roots), Marked());
    }

    /** Strings that were not marked leave the string table. */
    method RemoveWhiteStrings(ghost live: set<nat>)
      requires strings.Valid() && mark.Keys == store.Keys && Marked() == live
      requires forall k :: k in strings.contents ==> k.Obj? && k.ref in store
      modifies strings
      ensures strings.Valid()
      ensures strings.contents == map k | k in old(strings.contents) && k.ref in live :: old(strings.contents)[k]
    {
      hide Table.HashTable.Valid;
      var m, color := mark, markValue;
      strings.RemoveWhites((k: Value) => k.Obj? && k.ref in m && m[k.ref] != color);
    }

    /** A whole collection: what stays, in the list, in memory and among the strings, is
        exactly what the roots reach; every survivor is white again afterwards. */
    method CollectGarbage()
      requires Valid()
      modifies this`store, this`mark, this`next, this`objects, this`grayStack, this`markValue, this`list, strings
      ensures Valid()
      ensures var live := ReachableSet(old(store), RootRefs(roots));
              && list == Kept(old(list), live)
              && store == (map r | r in old(store) && r in live :: old(store)[r])
              && strings.contents == map k | k in old(strings.contents) && k.ref in live :: old(strings.contents)[k]
    {
      hide Linked, Kept, Reachable, RootRefs, Refs, Closed, Table.HashTable.Valid;
      MarkLive();
      RemoveWhiteStrings(ReachableSet(store, RootRefs(roots)));
      Sweep();
      LiveClosed(old(store), RootRefs(roots), store);
      markValue := !markValue;
      assert Marked() == {};
    }

    /** A new object goes to the front of the list, white. */
    method AllocateObject(p: Payload, o: nat)
      requires Valid() && Refs(p) <= store.Keys && o !in store
      modifies `store, `mark, `next, `objects, `list
      ensures Valid() && store == old(store)[o := p] && list == [o] + old(list)
    {
      hide Linked, RootRefs, Refs, Table.HashTable.Valid;
      Pushed(next, objects, list, o);
      store := store[o := p];
      mark := mark[o := !markValue];
      next := next[o := objects];
      objects := Some(o);
      list := [o] + list;
    }

    /** The heap holds everything the program can still reach, unchanged, and nothing the
        program did not make; the string table lists exactly the interned strings it holds. */
    ghost predicate Agrees(w: Unbounded)
      reads this, strings
    {
      && roots == w.roots && Fresh(w) && strings.contents.Keys == Interned(w.interned, store)
      && (forall r :: r in store ==> r in w.store && store[r] == w.store[r])
      && (forall r :: Reachable(w.store, RootRefs(w.roots), r) ==> r in store)
    }

    /** A collection the program does not notice. */
    method CollectUnseen(ghost w: Unbounded)
      requires Valid() && Agrees(w)
      modifies this, strings
      ensures Valid() && Agrees(w)
    {
      hide Linked, Kept, Reachable, RootRefs, Refs, Closed, Table.HashTable.Valid, Colored;
      SameReach(store, w.store, RootRefs(roots));
      CollectGarbage();
    }

    method AllocateAndPush(p: Payload, o: nat, ghost w: Unbounded, ghost collect: bool)
      requires Valid() && Agrees(w) && Allowed(w, New(p, collect)) && o == w.made
      modifies this
      ensures Valid() && Agrees(After(w, New(p, collect)))
    {
      hide Linked, Reachable, RootRefs, Refs, Table.HashTable.Valid, Colored;
      NewReach(w, p, collect);
      AllocateObject(p, o);
      StackRefs(roots, o);
      roots := roots.(stack := roots.stack + [Obj(o)]);
    }

    /** A new string goes into the string table while it is on the stack; making room in the
        table may collect once more. */
    method InternString(o: nat, during: bool, ghost w: Unbounded, ghost collect: bool)
      requires Valid() && Agrees(w) && Allowed(w, Intern(collect, during)) && o == w.made
      modifies this, strings
      ensures Valid() && Agrees(After(w, Intern(collect, during)))
    {
      hide Valid, Reachable, RootRefs, Refs, Fresh, Interned;
      StringHasNoRefs(w, collect);
      ghost var w1 := After(w, New(String, collect));
      OnStack(w, collect);
      AllocateAndPush(String, o, w, collect);
      if during { CollectUnseen(w1); }
      ListString(o, w1);
    }

    method ListString(o: nat, ghost w: Unbounded)
      requires Valid() && Agrees(w) && o in store
      modifies strings
      ensures Valid() && Agrees(w.(interned := w.interned + {o}))
    {
      hide Linked, Reachable, RootRefs, Refs, Closed, Table.HashTable.Valid, Colored;
      var _ := strings.Set(Obj(o), Nil);
      assert Interned(w.interned + {o}, store) == Interned(w.interned, store) + {Obj(o)};
    }

    method Overwrite(r: nat, p: Payload, ghost w: Unbounded)
      requires Valid() && Agrees(w) && Allowed(w, Write(r, p))
      modifies this
      ensures Valid() && Agrees(After(w, Write(r, p)))
    {
      hide Linked, Reachable, RootRefs, Refs, Table.HashTable.Valid, Colored;
      WriteReach(w, r, p);
      store := store[r := p];
    }

    method ReplaceRoots(rs: Roots, ghost w: Unbounded)
      requires Valid() && Agrees(w) && Allowed(w, SetRoots(rs))
      modifies this
      ensures Valid() && Agrees(After(w, SetRoots(rs)))
    {
      hide Linked, Reachable, RootRefs, Refs, Table.HashTable.Valid, Colored;
      RootsReach(w, rs);
      roots := rs;
    }

    lemma {:induction false} SameRoots(w: Unbounded)
      requires Agrees(w)
      ensures roots == w.roots && Fresh(w)
    {
      hide Reachable, RootRefs, Refs;
    }

    /** What the program can reach is in memory, unchanged. */
    lemma {:induction false} StillThere(w: Unbounded, r: nat)
      requires Agrees(w) && Reachable(w.store, RootRefs(w.roots), r)
      ensures roots == w.roots && Fresh(w) && r in store && r in w.store && store[r] == w.store[r]
    {
      hide Reachable, RootRefs, Refs, Fresh;
    }

    /** Pushes what a field holds: it is there. */
    method LoadField(r: nat, f: Field, ghost w: Unbounded)
      requires Valid() && Agrees(w) && Allowed(w, Load(r, f))
      modifies this
      ensures Valid() && Agrees(After(w, Load(r, f)))
    {
      hide Valid, Agrees, Fetch, Reachable, RootRefs;
      StillThere(w, r);
      var v := Fetch(store[r], f);
      LoadReach(w, r, f);
      ReplaceRoots(roots.(stack := roots.stack + [v]), w);
    }

    method LoadPlace(f: Place, ghost w: Unbounded)
      requires Valid() && Agrees(w)
      modifies this
      ensures Valid() && Agrees(After(w, LoadRoot(f)))
    {
      hide Valid, Agrees, FetchRoot, Reachable, RootRefs;
      SameRoots(w);
      var v := FetchRoot(roots, f);
      LoadRootReach(w, f);
      ReplaceRoots(roots.(stack := roots.stack + [v]), w);
    }

    /** One action of the program; an allocation may have to collect first. */
    method Perform(a: Action, o: nat, ghost w: Unbounded)
      requires Valid() && Agrees(w) && Allowed(w, a) && (a.New? || a.Intern? ==> o == w.made)
      modifies this, strings
      ensures Valid() && Agrees(After(w, a))
    {
      hide Agrees, Valid;
      match a
      case Collect => CollectUnseen(w);
      case New(p, collect) =>
        if collect { CollectUnseen(w); }
        AllocateAndPush(p, o, w, collect);
      case Intern(collect, during) =>
        if collect { CollectUnseen(w); }
        InternString(o, during, w, collect);
      case Write(r, p) => Overwrite(r, p, w);
      case SetRoots(rs) => ReplaceRoots(rs, w);
      case Load(r, f) => LoadField(r, f, w);
      case LoadRoot(f) => LoadPlace(f, w);
    }

    /** Over any run, whenever collections happen, the program sees a memory in which nothing
        was ever freed. */
    method Execute(actions: seq<Action>, free: nat, ghost w: Unbounded) returns (ghost end: Unbounded)
      requires Valid() && Agrees(w) && AllAllowed(w, actions) && free == w.made
      modifies this, strings
      ensures Valid() && Agrees(end) && end == AfterAll(w, actions)
    {
      hide Allowed, After, Reachable;
      end := w;
      ghost var rest := actions;
      var made := free;
      for i := 0 to |actions|
        invariant Valid() && Agrees(end) && made == end.made && rest == actions[i..]
        invariant AllAllowed(end, rest) && AfterAll(end, rest) == AfterAll(w, actions)
      {
        assert rest[0] == actions[i] && rest[1..] == actions[i + 1..];
        Perform(actions[i], made, end);
        MadeCounts(end, actions[i]);
        if actions[i].New? || actions[i].Intern? { made := made + 1; }
        end := After(end, actions[i]);
        rest := rest[1..];
      }
    }
  }

  // ----- the program's view -----

  /** A memory that is never collected, and the strings that were ever interned in it. */
  datatype Unbounded = Unbounded(store: Store, roots: Roots, made: nat, interned: set<nat>)

  /** What a program does; an allocation may have to collect first, and interning may have to
      collect again to make room in the string table. */
  datatype Action =
    | New(p: Payload, collect: bool)
    | Intern(collect: bool, during: bool)
    | Write(r: nat, p: Payload)
    | SetRoots(roots: Roots)
    | Load(r: nat, field: Field)
    | LoadRoot(place: Place)
    | Collect

  ghost function Interned(s: set<nat>, store: Store): set<Value> {
    set r | r in s && r in store :: Obj(r)
  }

  ghost predicate Fresh(w: Unbounded) {
    Closed(w.store, RootRefs(w.roots)) && w.interned <= w.store.Keys && forall r :: r in w.store ==> r < w.made
  }

  ghost predicate AllReachable(w: Unbounded, s: set<nat>) {
    forall r :: r in s ==> Reachable(w.store, RootRefs(w.roots), r)
  }

  /** A program can only name what it can reach. */
  ghost predicate Allowed(w: Unbounded, a: Action) {
    match a
    case New(p, _) => AllReachable(w, Refs(p))
    case Intern(_, _) => true
    case Write(r, p) => Reachable(w.store, RootRefs(w.roots), r) && AllReachable(w, Refs(p))
    case SetRoots(rs) => AllReachable(w, RootRefs(rs))
    case Load(r, _) => r in w.store && Reachable(w.store, RootRefs(w.roots), r)
    case LoadRoot(_) => true
    case Collect => true
  }

  ghost function Push(rs: Roots, v: Value): Roots { rs.(stack := rs.stack + [v]) }

  ghost function Made(w: Unbounded, p: Payload): Unbounded {
    w.(store := w.store[w.made := p], roots := w.roots.(stack := w.roots.stack + [Obj(w.made)]), made := w.made + 1)
  }

  /** A new object is pushed on the stack, and a new string is listed as well; what is loaded is
      pushed; a collection changes nothing. */
  ghost function After(w: Unbounded, a: Action): Unbounded {
    match a
    case New(p, _) => Made(w, p)
    case Intern(_, _) => Made(w, String).(interned := w.interned + {w.made})
    case Write(r, p) => w.(store := w.store[r := p])
    case SetRoots(rs) => w.(roots := rs)
    case Load(r, f) => if r in w.store then w.(roots := Push(w.roots, Fetch(w.store[r], f))) else w
    case LoadRoot(f) => w.(roots := Push(w.roots, FetchRoot(w.roots, f)))
    case Collect => w
  }

  ghost predicate AllAllowed(w: Unbounded, actions: seq<Action>)
    decreases |actions|
  {
    actions == [] || (Allowed(w, actions[0]) && AllAllowed(After(w, actions[0]), actions[1..]))
  }

  ghost function AfterAll(w: Unbounded, actions: seq<Action>): Unbounded
    decreases |actions|
  {
    if actions == [] then w else AfterAll(After(w, actions[0]), actions[1..])
  }

  lemma {:induction false} MadeCounts(w: Unbounded, a: Action)
    ensures After(w, a).made == w.made + if a.New? || a.Intern? then 1 else 0
  {}

  /** Dropping unreachable objects changes nothing about what is reachable. */
  lemma {:induction false} SameReach(small: Store, big: Store, from: set<nat>)
    requires forall r :: r in small ==> r in big && small[r] == big[r]
    requires forall r :: Reachable(big, from, r) ==> r in small
    ensures forall r :: Reachable(small, from, r) <==> Reachable(big, from, r)
  {
    forall r | Reachable(small, from, r) ensures Reachable(big, from, r) {
      var p :| Leads(small, from, p, r);
      assert Leads(big, from, p, r);
    }
    forall r | Reachable(big, from, r) ensures Reachable(small, from, r) {
      var p :| Leads(big, from, p, r);
      forall i | 0 <= i < |p| ensures p[i] in small {
        assert Leads(big, from, p[..i + 1], p[i]);
      }
      assert Leads(small, from, p, r);
    }
  }

  /** Nothing outside `s` is reachable once `s` holds the roots and is closed. */
  lemma {:induction false} ReachWithin(store: Store, from: set<nat>, s: set<nat>)
    requires from <= s && forall x :: x in s && x in store ==> Refs(store[x]) <= s
    ensures forall r :: Reachable(store, from, r) ==> r in s
  {
    forall r | Reachable(store, from, r) ensures r in s { ClosedHoldsReachable(store, from, s, r); }
  }

  lemma {:induction false} ReachableClosed(w: Unbounded)
    requires Fresh(w)
    ensures var s := ReachableSet(w.store, RootRefs(w.roots));
            RootRefs(w.roots) <= s <= w.store.Keys && forall x :: x in s ==> Refs(w.store[x]) <= s
    ensures forall r :: Reachable(w.store, RootRefs(w.roots), r) ==> r in ReachableSet(w.store, RootRefs(w.roots))
  {
    hide Refs, RootRefs, Reachable;
    var s := ReachableSet(w.store, RootRefs(w.roots));
    RootsReachable(w.store, RootRefs(w.roots));
    forall x | x in s ensures Refs(w.store[x]) <= s { RefsReachable(w.store, RootRefs(w.roots), x); }
    ReachWithin(w.store, RootRefs(w.roots), s);
  }

  lemma {:induction false} StackRefs(roots: Roots, o: nat)
    ensures RootRefs(roots.(stack := roots.stack + [Obj(o)])) == RootRefs(roots) + {o}
  {
    PushRefs(roots, Obj(o));
  }

  lemma {:induction false} NewReach(w: Unbounded, p: Payload, collect: bool)
    requires Fresh(w) && Allowed(w, New(p, collect))
    ensures var w' := After(w, New(p, collect));
            && Fresh(w')
            && forall r :: Reachable(w'.store, RootRefs(w'.roots), r) ==> r == w.made || Reachable(w.store, RootRefs(w.roots), r)
  {
    hide Refs, RootRefs, Reachable;
    var w' := After(w, New(p, collect));
    var s := ReachableSet(w.store, RootRefs(w.roots));
    ReachableClosed(w);
    StackRefs(w.roots, w.made);
    ReachWithin(w'.store, RootRefs(w'.roots), s + {w.made});
  }

  lemma {:induction false} StringHasNoRefs(w: Unbounded, collect: bool)
    ensures Allowed(w, New(String, collect))
  {}

  lemma {:induction false} OnStack(w: Unbounded, collect: bool)
    requires Fresh(w)
    ensures var w' := After(w, New(String, collect)); Reachable(w'.store, RootRefs(w'.roots), w.made)
  {
    hide RootRefs, Reachable;
    var w' := After(w, New(String, collect));
    StackRefs(w.roots, w.made);
    RootReachable(w'.store, RootRefs(w'.roots), w.made);
  }

  lemma {:induction false} WriteReach(w: Unbounded, r: nat, p: Payload)
    requires Fresh(w) && Allowed(w, Write(r, p))
    ensures var w' := After(w, Write(r, p));
            Fresh(w') && forall x :: Reachable(w'.store, RootRefs(w'.roots), x) ==> Reachable(w.store, RootRefs(w.roots), x)
  {
    hide Refs, RootRefs, Reachable;
    var w' := After(w, Write(r, p));
    var s := ReachableSet(w.store, RootRefs(w.roots));
    ReachableClosed(w);
    ReachWithin(w'.store, RootRefs(w'.roots), s);
  }

  lemma {:induction false} RootsReach(w: Unbounded, rs: Roots)
    requires Fresh(w) && Allowed(w, SetRoots(rs))
    ensures var w' := After(w, SetRoots(rs));
            Fresh(w') && forall x :: Reachable(w'.store, RootRefs(w'.roots), x) ==> Reachable(w.store, RootRefs(w.roots), x)
  {
    hide Refs, RootRefs, Reachable;
    var s := ReachableSet(w.store, RootRefs(w.roots));
    ReachableClosed(w);
    ReachWithin(w.store, RootRefs(rs), s);
  }

  lemma {:induction false} PushRefs(rs: Roots, v: Value)
    ensures RootRefs(Push(rs, v)) == RootRefs(rs) + ValueRefs(v)
  {
    var stack := rs.stack + [v];
    assert stack[|rs.stack|] == v;
    assert forall i :: 0 <= i < |rs.stack| ==> stack[i] == rs.stack[i];
    assert ArrayRefs(stack) == ArrayRefs(rs.stack) + ValueRefs(v) by {
      forall r | r in ArrayRefs(rs.stack) ensures r in ArrayRefs(stack) {
        var i :| 0 <= i < |rs.stack| && rs.stack[i].Obj? && rs.stack[i].ref == r;
        assert stack[i].ref == r;
      }
    }
  }

  /** Loading brings nothing into reach that was not. */
  lemma {:induction false} LoadReach(w: Unbounded, r: nat, f: Field)
    requires Fresh(w) && Allowed(w, Load(r, f))
    ensures Allowed(w, SetRoots(Push(w.roots, Fetch(w.store[r], f))))
  {
    hide Refs, RootRefs, Reachable, Fetch;
    var v := Fetch(w.store[r], f);
    PushRefs(w.roots, v);
    RootsReachable(w.store, RootRefs(w.roots));
    RefsReachable(w.store, RootRefs(w.roots), r);
    if v.Obj? { RefsAreFields(w.store[r], v.ref); }
  }

  lemma {:induction false} LoadRootReach(w: Unbounded, f: Place)
    requires Fresh(w)
    ensures Allowed(w, SetRoots(Push(w.roots, FetchRoot(w.roots, f))))
  {
    hide Refs, RootRefs, Reachable, FetchRoot;
    var v := FetchRoot(w.roots, f);
    PushRefs(w.roots, v);
    RootsReachable(w.store, RootRefs(w.roots));
    if v.Obj? { RootsArePlaces(w.roots, v.ref); }
  }

  ghost function ReachableSet(store: Store, from: set<nat>): set<nat> {
    set r | r in store && Reachable(store, from, r)
  }

  lemma {:induction false} MarkedIsLive(store: Store, from: set<nat>, marked: set<nat>)
    requires marked <= store.Keys && forall r :: r in marked <==> Reachable(store, from, r)
    ensures marked == ReachableSet(store, from)
  {}

  /** Nothing that stays refers to anything that goes. */
  lemma {:induction false} LiveClosed(store: Store, from: set<nat>, store': Store)
    requires Closed(store, from)
    requires store' == map r | r in store && r in ReachableSet(store, from) :: store[r]
    ensures Closed(store', from)
  {
    hide Reachable, Refs;
    RootsReachable(store, from);
    forall r | r in store' ensures Refs(store'[r]) <= store'.Keys { RefsReachable(store, from, r); }
  }

  lemma {:induction false} Pushed(next: map<nat, Option<nat>>, head: Option<nat>, list: seq<nat>, o: nat)
    requires Linked(next, head, list) && o !in list
    ensures Linked(next[o := head], Some(o), [o] + list)
  {
    var list', next' := [o] + list, next[o := head];
    forall k | 0 <= k < |list'| ensures Link(next', list', k) {
      if k > 0 { assert Link(next, list, k - 1) && list'[k] == list[k - 1]; }
    }
  }

  /** `m` is what is left of `m0` once the dead objects among `seen` are gone. */
  ghost predicate Survives<T>(m0: map<nat, T>, m: map<nat, T>, live: set<nat>, seen: seq<nat>) {
    && (forall r :: r in m <==> r in m0 && (r in live || r !in seen))
    && (forall r :: r in m ==> m[r] == m0[r])
  }

  lemma {:induction false} SurvivesNext<T>(m0: map<nat, T>, m: map<nat, T>, live: set<nat>, all: seq<nat>, i: nat)
    requires i < |all| && Survives(m0, m, live, all[..i])
    ensures all[i] in live ==> Survives(m0, m, live, all[..i + 1])
    ensures all[i] !in live ==> Survives(m0, m - {all[i]}, live, all[..i + 1])
  {
    assert all[..i + 1] == all[..i] + [all[i]];
  }

  /** The sweep has dealt with the first `i` of `all` objects, keeping `kept`. */
  ghost predicate Half(all: seq<nat>, i: nat, live: set<nat>, list: seq<nat>, kept: seq<nat>, rest: seq<nat>) {
    i <= |all| && rest == all[i..] && kept == Kept(all[..i], live) && list == kept + rest
  }

  lemma {:induction false} SweepStarts(all: seq<nat>, live: set<nat>, store: Store, mark: map<nat, bool>)
    ensures Half(all, 0, live, all, [], all)
    ensures Survives(store, store, live, all[..0]) && Survives(mark, mark, live, all[..0])
  {}

  lemma {:induction false} HalfNext(all: seq<nat>, i: nat, live: set<nat>, list: seq<nat>, kept: seq<nat>, rest: seq<nat>)
    requires Half(all, i, live, list, kept, rest) && rest != []
    ensures i < |all| && rest[0] == all[i] && list == kept + rest && list == kept + ([rest[0]] + rest[1..])
    ensures rest[0] in live ==> Half(all, i + 1, live, list, kept + [rest[0]], rest[1..])
    ensures rest[0] !in live ==> Half(all, i + 1, live, kept + rest[1..], kept, rest[1..])
  {
    hide Kept;
    KeptNext(all, i, live);
    assert rest == [rest[0]] + rest[1..];
    assert (kept + [rest[0]]) + rest[1..] == kept + ([rest[0]] + rest[1..]);
  }

  lemma {:induction false} SweepEnds(all: seq<nat>, i: nat, live: set<nat>, list: seq<nat>, kept: seq<nat>, rest: seq<nat>)
    requires Half(all, i, live, list, kept, rest) && rest == []
    ensures list == Kept(all, live) && all[..i] == all
  {
    hide Kept;
    assert all[..i] == all;
  }

  lemma {:induction false} AllSwept<T>(m0: map<nat, T>, m: map<nat, T>, live: set<nat>, all: seq<nat>)
    requires Survives(m0, m, live, all) && forall r :: r in m0 <==> r in all
    ensures m == map r | r in m0 && r in live :: m0[r]
  {}

  lemma {:induction false} ColorOf(m0: map<nat, bool>, m: map<nat, bool>, live: set<nat>, seen: seq<nat>, color: bool, o: nat)
    requires Survives(m0, m, live, seen) && live == Colored(m0, color) && o in m
    ensures m[o] == color <==> o in live
  {}

  lemma {:induction false} HeadOf(next: map<nat, Option<nat>>, head: Option<nat>, list: seq<nat>)
    requires Linked(next, head, list)
    ensures head == At(list, 0)
  {}

  lemma {:induction false} NextOf(next: map<nat, Option<nat>>, head: Option<nat>, list: seq<nat>, a: seq<nat>, b: seq<nat>)
    requires Linked(next, head, list) && list == a + b && b != []
    ensures b[0] in next && next[b[0]] == At(b, 1) && b[0] in list && b[0] !in a && b[0] !in b[1..]
  {
    assert Link(next, list, |a|) && list[|a|] == b[0];
    assert |b| > 1 ==> list[|a| + 1] == b[1];
    forall k | 0 <= k < |a| ensures a[k] != b[0] { assert a[k] == list[k]; }
    forall k | 1 <= k < |b| ensures b[k] != b[0] { assert b[k] == list[|a| + k]; }
  }

  lemma {:induction false} KeptNext(all: seq<nat>, i: nat, live: set<nat>)
    requires i < |all|
    ensures Kept(all[..i + 1], live) == Kept(all[..i], live) + if all[i] in live then [all[i]] else []
    ensures forall r :: r in all[..i + 1] <==> r in all[..i] || r == all[i]
  {
    assert all[..i + 1][..i] == all[..i] && all[..i + 1][i] == all[i];
    assert all[..i + 1] == all[..i] + [all[i]];
  }

  /** Taking `o` out of the list, between `a` and `b`. */
  lemma {:induction false} Unlink(next: map<nat, Option<nat>>, head: Option<nat>, a: seq<nat>, o: nat, b: seq<nat>)
    requires Linked(next, head, a + ([o] + b))
    ensures Linked((if a == [] then next else next[a[|a| - 1] := At(b, 0)]) - {o}, if a == [] then At(b, 0) else head, a + b)
  {
    var list, list' := a + ([o] + b), a + b;
    var next' := (if a == [] then next else next[a[|a| - 1] := At(b, 0)]) - {o};
    forall j, k | 0 <= j < k < |list'| ensures list'[j] != list'[k] {
      assert list'[j] == list[if j < |a| then j else j + 1] && list'[k] == list[if k < |a| then k else k + 1];
    }
    assert list[|a|] == o;
    forall k | 0 <= k < |list'| ensures Link(next', list', k) {
      var m := if k < |a| then k else k + 1;
      assert list'[k] == list[m] && Link(next, list, m) && list[m] != o;
      if k < |a| - 1 { assert list[k + 1] == list'[k + 1] && list[k] != list[|a| - 1]; }
      else if k >= |a| {
        assert k + 1 < |list'| ==> list[m + 1] == list'[k + 1];
        if a != [] { assert list[|a| - 1] != list[m] && list[|a| - 1] == a[|a| - 1]; }
      }
    }
  }

  lemma {:induction false} Turn(store: Store, m: map<nat, bool>, g: seq<nat>, m': map<nat, bool>, g': seq<nat>, color: bool,
                                gray: seq<nat>, o: nat)
    requires gray == g + [o] && Advanced(m, g, m', g', color) && m.Keys == store.Keys
    requires forall r :: r in Colored(m, color) && r !in gray ==> Refs(store[r]) <= Colored(m, color)
    requires o in store && Refs(store[o]) <= Colored(m', color)
    ensures forall r :: r in Colored(m', color) && r !in g' ==> Refs(store[r]) <= Colored(m', color)
    ensures var before, after := store.Keys - Colored(m, color), store.Keys - Colored(m', color);
            |after| < |before| || (|after| == |before| && |g'| == |g|)
  {
    hide Refs;
    var before, after := store.Keys - Colored(m, color), store.Keys - Colored(m', color);
    SmallerSet(after, before);
    PrefixMembers(g, g');
  }

  lemma {:induction false} PrefixMembers(g: seq<nat>, g': seq<nat>)
    requires g <= g'
    ensures forall r :: r in g ==> r in g'
  {
    assert forall i :: 0 <= i < |g| ==> g'[i] == g[i];
  }

  lemma {:induction false} SmallerSet(a: set<nat>, b: set<nat>)
    requires a <= b
    ensures |a| <= |b| && (|a| == |b| ==> a == b)
  {
    assert b == a + (b - a);
  }

  lemma {:induction false} PointerToSelf(o: nat)
    ensures PointerRefs(Some(o)) == {o}
  {}

  lemma {:induction false} AdvancedMeans(m: map<nat, bool>, g: seq<nat>, m': map<nat, bool>, g': seq<nat>, color: bool)
    requires Advanced(m, g, m', g', color)
    ensures m'.Keys == m.Keys && Colored(m, color) <= Colored(m', color)
  {}

  lemma {:induction false} AdvancedSelf(m: map<nat, bool>, g: seq<nat>, color: bool)
    ensures Advanced(m, g, m, g, color)
  {}

  lemma {:induction false} AllGray(m: map<nat, bool>, g: seq<nat>, m': map<nat, bool>, g': seq<nat>, color: bool)
    requires Advanced(m, g, m', g', color) && Colored(m, color) == {}
    ensures forall r :: r in Colored(m', color) ==> r in g'
  {}

  lemma {:induction false} RefsReachable(store: Store, from: set<nat>, o: nat)
    requires Closed(store, from) && Reachable(store, from, o) && o in store
    ensures forall e :: e in Refs(store[o]) ==> e in store && Reachable(store, from, e)
  {
    forall e | e in Refs(store[o]) ensures e in store && Reachable(store, from, e) { StepReachable(store, from, o, e); }
  }

  lemma {:induction false} RootsReachable(store: Store, from: set<nat>)
    requires Closed(store, from)
    ensures forall e :: e in from ==> e in store && Reachable(store, from, e)
  {
    forall e | e in from ensures e in store && Reachable(store, from, e) { RootReachable(store, from, e); }
  }
}
