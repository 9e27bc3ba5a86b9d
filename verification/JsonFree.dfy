/** Freeing a parsed JSON tree without a stack: each container counts its members down and
    the walk returns through the parent links. */
module JsonFree {
  import opened Basics
  import opened Json

  datatype Shape = Array | Object | Text | Plain

  /** A value as a tree. */
  datatype Tree = Tree(id: nat, shape: Shape, kids: seq<Tree>)

  /** A value in memory; `length` counts down while the tree is freed. */
  datatype Node = Node(shape: Shape, parent: Option<nat>, values: seq<nat>, length: nat)

  type Memory = map<nat, Node>

  /** A call to the allocator: the block of a value, or the value itself. */
  datatype Release = BlockOf(id: nat) | ValueOf(id: nat)

  predicate Container(s: Shape) { s == Array || s == Object }

  function Own(t: Tree): seq<Release> {
    if t.shape == Plain then [ValueOf(t.id)] else [BlockOf(t.id), ValueOf(t.id)]
  }

  /** Members from the last to the first, then the value with its block. */
  function Order(t: Tree): seq<Release> {
    OrderAll(t.kids) + Own(t)
  }

  function OrderAll(ts: seq<Tree>): seq<Release> {
    if ts == [] then [] else Order(ts[|ts| - 1]) + OrderAll(ts[..|ts| - 1])
  }

  // ----- trees in memory -----

  /** `t` lies in memory below `parent`, untouched. */
  ghost predicate Lies(m: Memory, t: Tree, parent: Option<nat>) {
    && t.id in m && m[t.id].shape == t.shape && m[t.id].parent == parent && m[t.id].length == |t.kids| == |m[t.id].values|
    && (t.kids != [] ==> Container(t.shape))
    && (forall i :: 0 <= i < |t.kids| ==> m[t.id].values[i] == t.kids[i].id)
    && forall i :: 0 <= i < |t.kids| ==> Lies(m, t.kids[i], Some(t.id))
  }

  function Ids(t: Tree): seq<nat> {
    [t.id] + IdsAll(t.kids)
  }

  function IdsAll(ts: seq<Tree>): seq<nat> {
    if ts == [] then [] else Ids(ts[|ts| - 1]) + IdsAll(ts[..|ts| - 1])
  }

  ghost predicate Apart(s: seq<nat>) {
    forall i, j :: 0 <= i < j < |s| ==> s[i] != s[j]
  }

  /** Memory that changes only outside a tree leaves the tree as it was. */
  lemma {:induction false} LiesElsewhere(m: Memory, m': Memory, t: Tree, parent: Option<nat>, x: nat)
    requires Lies(m, t, parent) && x !in Ids(t) && forall r :: r in m && r != x ==> r in m' && m'[r] == m[r]
    ensures Lies(m', t, parent)
    decreases t
  {
    assert Ids(t)[0] == t.id;
    forall i | 0 <= i < |t.kids| ensures Lies(m', t.kids[i], Some(t.id)) {
      KidIds(t.kids, i, x);
      assert Ids(t)[1..] == IdsAll(t.kids);
      LiesElsewhere(m, m', t.kids[i], Some(t.id), x);
    }
  }

  lemma {:induction false} KidIds(ts: seq<Tree>, i: nat, x: nat)
    requires i < |ts|
    ensures x in Ids(ts[i]) ==> x in IdsAll(ts)
    decreases |ts|
  {
    if i < |ts| - 1 {
      assert ts[..|ts| - 1][i] == ts[i];
      KidIds(ts[..|ts| - 1], i, x);
    }
  }

  // ----- the walk -----

  /** A value the walk has entered and not yet freed, with `left` members still to visit. */
  datatype Frame = Frame(t: Tree, left: nat)

  ghost predicate Entered(m: Memory, f: Frame, parent: Option<nat>) {
    && f.left <= |f.t.kids| && f.t.id in m && m[f.t.id] == Node(f.t.shape, parent, m[f.t.id].values, f.left)
    && (f.t.kids != [] ==> Container(f.t.shape)) && |m[f.t.id].values| == |f.t.kids|
    && (forall i :: 0 <= i < |f.t.kids| ==> m[f.t.id].values[i] == f.t.kids[i].id)
    && (forall i :: 0 <= i < f.left ==> Lies(m, f.t.kids[i], Some(f.t.id)))
  }

  function Below(todo: seq<Frame>, i: nat): Option<nat>
    requires i <= |todo|
  {
    if i == 0 then None else Some(todo[i - 1].t.id)
  }

  /** What is still to be released. */
  function Rest(todo: seq<Frame>): seq<Release>
    requires forall i :: 0 <= i < |todo| ==> todo[i].left <= |todo[i].t.kids|
  {
    if todo == [] then [] else
      var f := todo[|todo| - 1];
      OrderAll(f.t.kids[..f.left]) + Own(f.t) + Rest(todo[..|todo| - 1])
  }

  /** The values not yet released. */
  function Alive(todo: seq<Frame>): seq<nat>
    requires forall i :: 0 <= i < |todo| ==> todo[i].left <= |todo[i].t.kids|
  {
    if todo == [] then [] else
      var f := todo[|todo| - 1];
      [f.t.id] + IdsAll(f.t.kids[..f.left]) + Alive(todo[..|todo| - 1])
  }

  ghost predicate Walking(m: Memory, todo: seq<Frame>) {
    && (forall i :: 0 <= i < |todo| ==> todo[i].left <= |todo[i].t.kids|)
    && (forall i :: 0 <= i < |todo| ==> Entered(m, todo[i], Below(todo, i)))
    && Apart(Alive(todo))
  }

  /** A value that is not among those of a frame is not on the walk's path above it. */
  lemma {:induction false} AliveFrame(todo: seq<Frame>, i: nat, x: nat)
    requires (forall k :: 0 <= k < |todo| ==> todo[k].left <= |todo[k].t.kids|) && i < |todo|
    ensures x == todo[i].t.id || x in IdsAll(todo[i].t.kids[..todo[i].left]) ==> x in Alive(todo)
    decreases |todo|
  {
    var n := |todo| - 1;
    if i < n {
      assert todo[..n][i] == todo[i];
      AliveFrame(todo[..n], i, x);
    }
  }

  lemma {:induction false} EnteredElsewhere(m: Memory, m': Memory, f: Frame, parent: Option<nat>, x: nat)
    requires Entered(m, f, parent) && x != f.t.id && x !in IdsAll(f.t.kids[..f.left])
    requires forall r :: r in m && r != x ==> r in m' && m'[r] == m[r]
    ensures Entered(m', f, parent)
  {
    forall i | 0 <= i < f.left ensures Lies(m', f.t.kids[i], Some(f.t.id)) {
      assert f.t.kids[..f.left][i] == f.t.kids[i];
      KidIds(f.t.kids[..f.left], i, x);
      LiesElsewhere(m, m', f.t.kids[i], Some(f.t.id), x);
    }
  }

  lemma {:induction false} ApartParts(a: seq<nat>, b: seq<nat>)
    requires Apart(a + b)
    ensures Apart(a) && Apart(b) && forall x :: x in a ==> x !in b
  {
    var s := a + b;
    forall i, j | 0 <= i < j < |a| ensures a[i] != a[j] { assert s[i] == a[i] && s[j] == a[j]; }
    forall i, j | 0 <= i < j < |b| ensures b[i] != b[j] { assert s[|a| + i] == b[i] && s[|a| + j] == b[j]; }
    forall i, j | 0 <= i < |a| && 0 <= j < |b| ensures a[i] != b[j] { assert s[i] == a[i] && s[|a| + j] == b[j]; }
  }

  lemma {:induction false} AliveTop(todo: seq<Frame>)
    requires (forall k :: 0 <= k < |todo| ==> todo[k].left <= |todo[k].t.kids|) && Apart(Alive(todo)) && todo != []
    ensures var n := |todo| - 1; var f := todo[n]; var own := [f.t.id] + IdsAll(f.t.kids[..f.left]);
            && Apart(Alive(todo[..n])) && Apart(own) && forall x :: x in own ==> x !in Alive(todo[..n])
  {
    var n := |todo| - 1;
    ApartParts([todo[n].t.id] + IdsAll(todo[n].t.kids[..todo[n].left]), Alive(todo[..n]));
  }

  /** Frames below the top are not disturbed by a change to the top value. */
  lemma {:induction false} LowerFrames(m: Memory, m': Memory, todo: seq<Frame>)
    requires Walking(m, todo) && todo != []
    requires forall r :: r in m && r != todo[|todo| - 1].t.id ==> r in m' && m'[r] == m[r]
    ensures Walking(m', todo[..|todo| - 1])
  {
    hide Entered, Alive, Apart, IdsAll;
    var n := |todo| - 1;
    var x := todo[n].t.id;
    var low := todo[..n];
    AliveTop(todo);
    assert ([x] + IdsAll(todo[n].t.kids[..todo[n].left]))[0] == x;
    forall i | 0 <= i < n ensures Entered(m', low[i], Below(low, i)) {
      assert low[i] == todo[i] && Below(low, i) == Below(todo, i) && Entered(m, todo[i], Below(todo, i));
      AliveFrame(low, i, x);
      EnteredElsewhere(m, m', low[i], Below(low, i), x);
    }
  }

  lemma {:induction false} RestTop(todo: seq<Frame>)
    requires (forall k :: 0 <= k < |todo| ==> todo[k].left <= |todo[k].t.kids|) && todo != []
    ensures var n := |todo| - 1; var f := todo[n];
            && Rest(todo) == OrderAll(f.t.kids[..f.left]) + Own(f.t) + Rest(todo[..n]) && |Rest(todo)| > |Rest(todo[..n])|
            && Alive(todo) == [f.t.id] + IdsAll(f.t.kids[..f.left]) + Alive(todo[..n])
  {}

  ghost predicate Counted(todo: seq<Frame>) {
    forall i :: 0 <= i < |todo| ==> todo[i].left <= |todo[i].t.kids|
  }

  /** Entering the last unvisited member of the top value. */
  ghost function Into(todo: seq<Frame>): seq<Frame>
    requires Counted(todo) && todo != [] && todo[|todo| - 1].left > 0
  {
    var f := todo[|todo| - 1];
    var kid := f.t.kids[f.left - 1];
    todo[..|todo| - 1] + [Frame(f.t, f.left - 1), Frame(kid, |kid.kids|)]
  }

  lemma {:induction false} Descend(m: Memory, m': Memory, todo: seq<Frame>, f: Frame)
    requires Walking(m, todo) && todo != [] && f == todo[|todo| - 1] && f.left > 0
    requires f.t.id in m && m' == m[f.t.id := m[f.t.id].(length := f.left - 1)]
    ensures Counted(todo) && Walking(m', Into(todo)) && Rest(Into(todo)) == Rest(todo) && |Into(todo)| == |todo| + 1
  {
    hide Alive, Apart, IdsAll, Order, OrderAll, Own, Rest, Entered;
    var n := |todo| - 1;
    assert Counted(todo);
    var kid := f.t.kids[f.left - 1];
    var low, todo' := todo[..n], Into(todo);
    LowerFrames(m, m', todo);
    DescendFrames(m, m', todo, f, kid);
    DescendCounts(todo, f, kid);
    forall i | 0 <= i < |todo'| ensures Entered(m', todo'[i], Below(todo', i)) {
      if i < n { assert todo'[i] == low[i] && Below(todo', i) == Below(low, i) && Entered(m', low[i], Below(low, i)); }
      else if i == n { assert Below(todo', n) == Below(todo, n); }
    }
  }

  lemma {:induction false} DescendFrames(m: Memory, m': Memory, todo: seq<Frame>, f: Frame, kid: Tree)
    requires Walking(m, todo) && todo != [] && f == todo[|todo| - 1] && f.left > 0 && kid == f.t.kids[f.left - 1]
    requires f.t.id in m && m' == m[f.t.id := m[f.t.id].(length := f.left - 1)]
    ensures Entered(m', Frame(f.t, f.left - 1), Below(todo, |todo| - 1))
    ensures Entered(m', Frame(kid, |kid.kids|), Some(f.t.id))
  {
    hide Alive, Apart;
    var x, kids := f.t.id, f.t.kids[..f.left];
    AliveTop(todo);
    assert Entered(m, f, Below(todo, |todo| - 1));
    ApartParts([x], IdsAll(kids));
    forall i | 0 <= i < f.left ensures Lies(m', f.t.kids[i], Some(x)) {
      assert kids[i] == f.t.kids[i];
      KidIds(kids, i, x);
      assert x in [x];
      LiesElsewhere(m, m', f.t.kids[i], Some(x), x);
    }
    assert kid.kids[..|kid.kids|] == kid.kids;
  }

  lemma {:induction false} DescendCounts(todo: seq<Frame>, f: Frame, kid: Tree)
    requires (forall k :: 0 <= k < |todo| ==> todo[k].left <= |todo[k].t.kids|) && Apart(Alive(todo))
    requires todo != [] && f == todo[|todo| - 1] && f.left > 0 && kid == f.t.kids[f.left - 1]
    ensures var todo' := todo[..|todo| - 1] + [Frame(f.t, f.left - 1), Frame(kid, |kid.kids|)];
            && (forall k :: 0 <= k < |todo'| ==> todo'[k].left <= |todo'[k].t.kids|)
            && Rest(todo') == Rest(todo) && Apart(Alive(todo'))
  {
    hide Rest, Alive, OrderAll, IdsAll, Order, Ids, Apart;
    var n := |todo| - 1;
    var mid := todo[..n] + [Frame(f.t, f.left - 1)];
    var todo' := todo[..n] + [Frame(f.t, f.left - 1), Frame(kid, |kid.kids|)];
    assert todo'[..n + 1] == mid && mid[..n] == todo[..n];
    assert kid.kids[..|kid.kids|] == kid.kids;
    RestTop(todo);
    RestTop(mid);
    RestTop(todo');
    KidsSplit(f.t.kids, f.left, kid);
    var low, fewer := todo[..n], f.t.kids[..f.left - 1];
    OrderIs(kid);
    assert (Order(kid) + OrderAll(fewer)) + Own(f.t) + Rest(low) == Order(kid) + (OrderAll(fewer) + Own(f.t) + Rest(low));
    AliveMoves([f.t.id], Ids(kid), IdsAll(fewer), Alive(low));
  }

  lemma {:induction false} OrderIs(t: Tree)
    ensures Order(t) == OrderAll(t.kids) + Own(t) && Ids(t) == [t.id] + IdsAll(t.kids)
  {}

  lemma {:induction false} KidsSplit(ts: seq<Tree>, n: nat, kid: Tree)
    requires 0 < n <= |ts| && kid == ts[n - 1]
    ensures OrderAll(ts[..n]) == Order(kid) + OrderAll(ts[..n - 1]) && IdsAll(ts[..n]) == Ids(kid) + IdsAll(ts[..n - 1])
  {
    assert ts[..n][..n - 1] == ts[..n - 1] && ts[..n][n - 1] == kid;
  }

  lemma {:induction false} AliveMoves(x: seq<nat>, a: seq<nat>, b: seq<nat>, c: seq<nat>)
    requires Apart(x + (a + b) + c)
    ensures Apart(a + (x + b + c))
  {
    ApartParts(x + (a + b), c);
    ApartParts(x, a + b);
    ApartParts(a, b);
    JoinApart(x, b);
    JoinApart(x + b, c);
    JoinApart(a, x + b + c);
  }

  lemma {:induction false} JoinApart(a: seq<nat>, b: seq<nat>)
    requires Apart(a) && Apart(b) && forall x :: x in a ==> x !in b
    ensures Apart(a + b)
  {
    var s := a + b;
    forall i, j | 0 <= i < j < |s| ensures s[i] != s[j] {
      if i < |a| && j >= |a| { assert a[i] in a && b[j - |a|] in b; }
    }
  }

  // ----- freeing -----

  /** Releases a whole tree. Every access is to a value that is still there, and the releases
      are exactly the value and the block of each part of the tree, members before holders. */
  method FreeTree(memory: Memory, root: nat, ghost t: Tree, ghost parent: Option<nat>) returns (released: seq<Release>, left: Memory)
    requires root == t.id && Lies(memory, t, parent) && Apart(Ids(t))
    ensures released == Order(t)
    ensures left.Keys == memory.Keys - set i | 0 <= i < |Ids(t)| :: Ids(t)[i]
  {
    hide Lies, Walking, Order, Rest, Into, Apart, Ids;
    FirstFrame(memory, t, parent);
    left := memory[root := memory[root].(parent := None)];
    released := [];
    var value := Some(root);
    ghost var todo := [Frame(t, |t.kids|)];
    while value.Some?
      invariant Walking(left, todo) && Counted(todo) && value == Below(todo, |todo|)
      invariant released + Rest(todo) == Order(t)
      invariant |todo| <= |Rest(todo)| && Gone(memory, left, released)
      decreases 2 * |Rest(todo)| - |todo|
    {
      var id := value.value;
      ghost var f := todo[|todo| - 1];
      TopFrame(left, todo);
      var node := left[id];
      if Container(node.shape) && node.length > 0 {
        Descend(left, left[id := node.(length := node.length - 1)], todo, f);
        left := left[id := node.(length := node.length - 1)];
        value := Some(node.values[node.length - 1]);
        IntoTop(todo, f);
        todo := Into(todo);
      } else {
        FreeTop(left, left - {id}, todo, f);
        ghost var before := released;
        if node.shape != Plain { released := released + [BlockOf(id)]; }
        value := node.parent;
        released := released + [ValueOf(id)];
        assert released == before + Own(f.t);
        assert before + (Own(f.t) + Rest(todo[..|todo| - 1])) == released + Rest(todo[..|todo| - 1]);
        OneGone(memory, left, before, f.t);
        left := left - {id};
        todo := todo[..|todo| - 1];
      }
    }
    RestNothing(todo);
    AllGone(memory, left, t);
  }

  /** Exactly the released values are missing from memory. */
  ghost predicate Gone(memory: Memory, left: Memory, released: seq<Release>) {
    forall r :: r in left <==> r in memory && ValueOf(r) !in released
  }

  lemma {:induction false} OneGone(memory: Memory, left: Memory, released: seq<Release>, t: Tree)
    requires Gone(memory, left, released)
    ensures Gone(memory, left - {t.id}, released + Own(t))
  {
    assert forall r :: ValueOf(r) in Own(t) <==> r == t.id;
  }

  lemma {:induction false} FirstFrame(memory: Memory, t: Tree, parent: Option<nat>)
    requires Lies(memory, t, parent) && Apart(Ids(t))
    ensures t.id in memory
    ensures var todo := [Frame(t, |t.kids|)]; var m := memory[t.id := memory[t.id].(parent := None)];
            && Walking(m, todo) && Counted(todo) && Rest(todo) == Order(t) && |Rest(todo)| >= 1 && Gone(memory, m, [])
  {
    var todo := [Frame(t, |t.kids|)];
    var m := memory[t.id := memory[t.id].(parent := None)];
    assert todo[..0] == [] && t.kids[..|t.kids|] == t.kids;
    assert Alive(todo) == Ids(t) + [] == Ids(t);
    assert Rest(todo) == Order(t) + [] == Order(t);
    ApartParts([t.id], IdsAll(t.kids));
    forall i | 0 <= i < |t.kids| ensures Lies(m, t.kids[i], Some(t.id)) {
      KidIds(t.kids, i, t.id);
      assert t.id in [t.id];
      LiesElsewhere(memory, m, t.kids[i], Some(t.id), t.id);
    }
  }

  /** What the walk finds in the value it stands at. */
  lemma {:induction false} TopFrame(m: Memory, todo: seq<Frame>)
    requires Walking(m, todo) && todo != []
    ensures var f := todo[|todo| - 1]; var n := m[f.t.id];
            && f.t.id in m && n.shape == f.t.shape && n.length == f.left <= |n.values| && n.parent == Below(todo, |todo| - 1)
            && (f.left > 0 ==> Container(n.shape) && n.values[f.left - 1] == f.t.kids[f.left - 1].id)
  {
    assert Entered(m, todo[|todo| - 1], Below(todo, |todo| - 1));
  }

  lemma {:induction false} IntoTop(todo: seq<Frame>, f: Frame)
    requires Counted(todo) && todo != [] && f == todo[|todo| - 1] && f.left > 0
    ensures Counted(Into(todo)) && Below(Into(todo), |Into(todo)|) == Some(f.t.kids[f.left - 1].id)
    ensures |todo| <= |Rest(todo)| && |Into(todo)| <= |Rest(Into(todo))|
  {
    LongEnough(todo);
    LongEnough(Into(todo));
  }

  lemma {:induction false} LongEnough(todo: seq<Frame>)
    requires Counted(todo)
    ensures |todo| <= |Rest(todo)|
  {
    if todo != [] { LongEnough(todo[..|todo| - 1]); }
  }

  /** Leaving the top value: nothing in it is left to visit. */
  lemma {:induction false} FreeTop(m: Memory, m': Memory, todo: seq<Frame>, f: Frame)
    requires Walking(m, todo) && Counted(todo) && todo != [] && f == todo[|todo| - 1] && f.left == 0 && m' == m - {f.t.id}
    ensures var low := todo[..|todo| - 1];
            && Walking(m', low) && Counted(low) && Rest(todo) == Own(f.t) + Rest(low) && |low| <= |Rest(low)|
            && Below(low, |low|) == Below(todo, |todo| - 1)
  {
    hide Walking, Rest;
    var low := todo[..|todo| - 1];
    LowerFrames(m, m', todo);
    RestTop(todo);
    assert f.t.kids[..0] == [] && OrderAll([]) == [] && [] + Own(f.t) == Own(f.t);
    assert Counted(low);
    LongEnough(low);
  }

  lemma {:induction false} RestNothing(todo: seq<Frame>)
    requires Counted(todo) && Below(todo, |todo|) == None
    ensures Rest(todo) == []
  {}

  // ----- exactly once -----

  lemma {:induction false} OrderValues(t: Tree, x: nat)
    ensures ValueOf(x) in Order(t) <==> x in Ids(t)
    decreases t, 0
  {
    OrderAllValues(t.kids, x);
  }

  lemma {:induction false} OrderAllValues(ts: seq<Tree>, x: nat)
    ensures ValueOf(x) in OrderAll(ts) <==> x in IdsAll(ts)
    decreases ts
  {
    if ts != [] {
      OrderValues(ts[|ts| - 1], x);
      OrderAllValues(ts[..|ts| - 1], x);
    }
  }

  lemma {:induction false} AllGone(memory: Memory, left: Memory, t: Tree)
    requires Gone(memory, left, Order(t))
    ensures left.Keys == memory.Keys - set i | 0 <= i < |Ids(t)| :: Ids(t)[i]
  {
    var ids := set i | 0 <= i < |Ids(t)| :: Ids(t)[i];
    forall r ensures r in left <==> r in memory && r !in ids {
      OrderValues(t, r);
      if r in Ids(t) { var i :| 0 <= i < |Ids(t)| && Ids(t)[i] == r; }
    }
  }

  /** Nothing is released twice. */
  lemma {:induction false} ReleasedOnce(t: Tree)
    requires Apart(Ids(t))
    ensures forall i, j :: 0 <= i < j < |Order(t)| ==> Order(t)[i] != Order(t)[j]
    decreases t, 0
  {
    var s, own := OrderAll(t.kids), Own(t);
    ApartParts([t.id], IdsAll(t.kids));
    ReleasedOnceAll(t.kids);
    assert t.id in [t.id];
    OwnElsewhere(t.kids, t.id);
    forall i, j | 0 <= i < j < |Order(t)| ensures Order(t)[i] != Order(t)[j] {
      if i < |s| && j >= |s| { assert s[i] in s; }
    }
  }

  lemma {:induction false} OwnElsewhere(ts: seq<Tree>, x: nat)
    requires x !in IdsAll(ts)
    ensures ValueOf(x) !in OrderAll(ts) && BlockOf(x) !in OrderAll(ts)
    decreases ts, 1
  {
    if ts != [] {
      OwnElsewhere(ts[..|ts| - 1], x);
      OwnNotIn(ts[|ts| - 1], x);
    }
  }

  lemma {:induction false} OwnNotIn(t: Tree, x: nat)
    requires x !in Ids(t)
    ensures ValueOf(x) !in Order(t) && BlockOf(x) !in Order(t)
    decreases t, 0
  {
    assert Ids(t)[0] == t.id && Ids(t)[1..] == IdsAll(t.kids);
    OwnElsewhere(t.kids, x);
  }

  lemma {:induction false} ReleasedOnceAll(ts: seq<Tree>)
    requires Apart(IdsAll(ts))
    ensures forall i, j :: 0 <= i < j < |OrderAll(ts)| ==> OrderAll(ts)[i] != OrderAll(ts)[j]
    decreases ts
  {
    if ts != [] {
      var t, low := ts[|ts| - 1], ts[..|ts| - 1];
      ApartParts(Ids(t), IdsAll(low));
      ReleasedOnce(t);
      ReleasedOnceAll(low);
      forall i, j | 0 <= i < |Order(t)| && 0 <= j < |OrderAll(low)| ensures Order(t)[i] != OrderAll(low)[j] {
        var x := Order(t)[i].id;
        assert Order(t)[i] in Order(t);
        if x !in Ids(t) { OwnNotIn(t, x); }
        OwnElsewhere(low, x);
      }
    }
  }

  /** `u` is `t` or a value inside it. */
  ghost predicate Inside(u: Tree, t: Tree)
    decreases t
  {
    u == t || exists i :: 0 <= i < |t.kids| && Inside(u, t.kids[i])
  }

  /** Every value in the tree is released, and the block of every array, object and text. */
  lemma {:induction false} AllReleased(u: Tree, t: Tree)
    requires Inside(u, t)
    ensures ValueOf(u.id) in Order(t) && (u.shape == Array || u.shape == Object || u.shape == Shape.Text ==> BlockOf(u.id) in Order(t))
    decreases t
  {
    hide OrderAll;
    if u != t {
      var i :| 0 <= i < |t.kids| && Inside(u, t.kids[i]);
      AllReleased(u, t.kids[i]);
      InOrderAll(t.kids, i, ValueOf(u.id));
      if u.shape != Plain { InOrderAll(t.kids, i, BlockOf(u.id)); }
    }
  }

  /** The root comes last, right after its block. */
  lemma {:induction false} RootLast(t: Tree)
    ensures var n := |Order(t)|; n > 0 && Order(t)[n - 1] == ValueOf(t.id)
    ensures var n := |Order(t)|; t.shape != Plain ==> n > 1 && Order(t)[n - 2] == BlockOf(t.id)
  {
    hide OrderAll;
  }

  lemma {:induction false} InOrderAll(ts: seq<Tree>, i: nat, r: Release)
    requires i < |ts| && r in Order(ts[i])
    ensures r in OrderAll(ts)
    decreases |ts|
  {
    if i < |ts| - 1 { InOrderAll(ts[..|ts| - 1], i, r); }
  }
}
