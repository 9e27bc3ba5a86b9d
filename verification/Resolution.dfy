/** Resolving names across nested functions while they are being compiled. A name that is not
    a local becomes a chain of captures, one per enclosing function; each capture names a
    local or a capture of the next function out. */
module Resolution {
  import opened Basics
  import opened Values
  import opened UpValues

  const MAX_CAPTURES := 256
  const MAX_LOCALS := 256

  datatype LocalVar = LocalVar(name: string, depth: int, captured: bool)

  /** The compiler of one function: its live locals, and the variables it has captured. */
  datatype Compiler = Compiler(locals: seq<LocalVar>, scopeDepth: int, upValues: seq<Descriptor>)

  // ----- reference: visible declarations -----

  datatype Named = Named(name: string, decl: nat)

  /** Every declaration visible inside the `n` outermost functions, outermost first. */
  ghost function Scope(nest: seq<Compiler>, decls: seq<seq<nat>>, n: nat): seq<Named>
    requires n <= |nest| && Declared(nest, decls)
  {
    if n == 0 then [] else
      Scope(nest, decls, n - 1) + Own(nest[n - 1].locals, decls[n - 1])
  }

  ghost function Own(locals: seq<LocalVar>, decls: seq<nat>): (s: seq<Named>)
    requires |decls| == |locals|
    ensures |s| == |locals| && forall i :: 0 <= i < |s| ==> s[i] == Named(locals[i].name, decls[i])
  {
    seq(|locals|, i requires 0 <= i < |locals| => Named(locals[i].name, decls[i]))
  }

  /** The innermost declaration of a name. */
  function Innermost(scope: seq<Named>, x: string): Option<nat> {
    if scope == [] then None
    else if scope[|scope| - 1].name == x then Some(scope[|scope| - 1].decl)
    else Innermost(scope[..|scope| - 1], x)
  }

  /** `decls` gives each local its declaration; no declaration belongs to two locals. */
  ghost predicate Declared(nest: seq<Compiler>, decls: seq<seq<nat>>) {
    |decls| == |nest| && forall l :: 0 <= l < |nest| ==> |decls[l]| == |nest[l].locals|
  }

  ghost predicate Separate(decls: seq<seq<nat>>) {
    forall l, i, m, j :: 0 <= l < |decls| && 0 <= i < |decls[l]| && 0 <= m < |decls| && 0 <= j < |decls[m]| ==>
      decls[l][i] == decls[m][j] ==> l == m && i == j
  }

  // ----- captures -----

  /** A capture of function `l` names a captured local, or a capture, of the function around it. */
  ghost predicate Sound(nest: seq<Compiler>, l: nat, d: Descriptor) {
    && 0 < l < |nest|
    && if d.isLocal then d.index < |nest[l - 1].locals| && nest[l - 1].locals[d.index].captured
       else d.index < |nest[l - 1].upValues|
  }

  ghost predicate AllSound(nest: seq<Compiler>) {
    forall l, j :: 0 <= l < |nest| && 0 <= j < |nest[l].upValues| ==> Sound(nest, l, nest[l].upValues[j])
  }

  ghost predicate NoRepeats(nest: seq<Compiler>) {
    forall l, i, j :: 0 <= l < |nest| && 0 <= i < j < |nest[l].upValues| ==> nest[l].upValues[i] != nest[l].upValues[j]
  }

  /** The declaration reached by following a capture outwards. */
  ghost function Denotes(nest: seq<Compiler>, decls: seq<seq<nat>>, l: nat, j: nat): nat
    requires Declared(nest, decls) && AllSound(nest) && l < |nest| && j < |nest[l].upValues|
    decreases l
  {
    var d := nest[l].upValues[j];
    assert Sound(nest, l, d);
    if d.isLocal then decls[l - 1][d.index] else Denotes(nest, decls, l - 1, d.index)
  }

  ghost predicate Consistent(nest: seq<Compiler>, decls: seq<seq<nat>>) {
    Declared(nest, decls) && Separate(decls) && AllSound(nest) && NoRepeats(nest)
  }

  /** Where a capture leads: to a local of the next function out, or of one further out. */
  lemma {:induction false} DenotesOutside(nest: seq<Compiler>, decls: seq<seq<nat>>, l: nat, j: nat) returns (m: nat, i: nat)
    requires Consistent(nest, decls) && l < |nest| && j < |nest[l].upValues|
    ensures m < l && i < |decls[m]| && decls[m][i] == Denotes(nest, decls, l, j)
    ensures m == l - 1 <==> nest[l].upValues[j].isLocal
    decreases l
  {
    var d := nest[l].upValues[j];
    assert Sound(nest, l, d);
    if d.isLocal { m, i := l - 1, d.index; } else { m, i := DenotesOutside(nest, decls, l - 1, d.index); }
  }

  /** Sharing equal captures never confuses two variables: different captures of a function
      lead to different declarations. */
  lemma {:induction false} CapturesDiffer(nest: seq<Compiler>, decls: seq<seq<nat>>, l: nat, j: nat, k: nat)
    requires Consistent(nest, decls) && l < |nest| && j < |nest[l].upValues| && k < |nest[l].upValues|
    requires Denotes(nest, decls, l, j) == Denotes(nest, decls, l, k)
    ensures j == k
    decreases l
  {
    var a, b := nest[l].upValues[j], nest[l].upValues[k];
    assert Sound(nest, l, a) && Sound(nest, l, b);
    var m, i := DenotesOutside(nest, decls, l, j);
    var m', i' := DenotesOutside(nest, decls, l, k);
    assert m == m' && i == i';
    if !a.isLocal { CapturesDiffer(nest, decls, l - 1, a.index, b.index); }
  }

  // ----- when a name cannot be used -----

  /** Function `k` already reaches declaration `d`. */
  ghost predicate Reaches(nest: seq<Compiler>, decls: seq<seq<nat>>, k: nat, d: nat)
    requires Declared(nest, decls) && AllSound(nest) && k < |nest|
  {
    exists j :: 0 <= j < |nest[k].upValues| && Denotes(nest, decls, k, j) == d
  }

  /** Function `k` would need a capture for `d` and has no room for it. */
  ghost predicate Full(nest: seq<Compiler>, decls: seq<seq<nat>>, k: nat, d: nat)
    requires Declared(nest, decls) && AllSound(nest) && k < |nest|
  {
    |nest[k].upValues| == MAX_CAPTURES && !Reaches(nest, decls, k, d)
  }

  /** Local `i` of function `m` is still in its own initializer, or a function between it and
      function `level` has no room for its capture. */
  ghost predicate Barred(nest: seq<Compiler>, decls: seq<seq<nat>>, m: nat, i: nat, level: nat)
    requires Declared(nest, decls) && AllSound(nest) && level < |nest| && m < |nest| && i < |nest[m].locals|
  {
    nest[m].locals[i].depth == -1 || exists k: nat :: m < k <= level && Full(nest, decls, k, decls[m][i])
  }

  /** In function `level`, `x` means a declaration of the `n` outermost functions that it
      cannot use. */
  ghost predicate Blocked(nest: seq<Compiler>, decls: seq<seq<nat>>, n: nat, level: nat, x: string)
    requires Declared(nest, decls) && AllSound(nest) && n <= |nest| && level < |nest|
  {
    exists m: nat, i: nat :: m < n && i < |nest[m].locals|
      && Innermost(Scope(nest, decls, n), x) == Some(decls[m][i]) && Barred(nest, decls, m, i, level)
  }

  /** The declaration a name means settles whether it is blocked. */
  lemma {:induction false} BlockedAt(nest: seq<Compiler>, decls: seq<seq<nat>>, n: nat, level: nat, x: string, m: nat, i: nat)
    requires Consistent(nest, decls) && n <= |nest| && level < |nest| && m < n && i < |nest[m].locals|
    requires Innermost(Scope(nest, decls, n), x) == Some(decls[m][i])
    ensures Blocked(nest, decls, n, level, x) <==> Barred(nest, decls, m, i, level)
  {
    hide Innermost, Scope, Barred;
  }

  lemma {:induction false} NothingBlocked(nest: seq<Compiler>, decls: seq<seq<nat>>, n: nat, level: nat, x: string)
    requires Consistent(nest, decls) && n <= |nest| && level < |nest| && Innermost(Scope(nest, decls, n), x) == None
    ensures !Blocked(nest, decls, n, level, x)
  {
    hide Innermost, Scope, Barred;
  }

  /** A capture leads to a local of the next function out exactly if it names that local. */
  lemma {:induction false} ReachesLocal(nest: seq<Compiler>, decls: seq<seq<nat>>, l: nat, i: nat)
    requires Consistent(nest, decls) && 0 < l < |nest| && i < |nest[l - 1].locals|
    ensures Reaches(nest, decls, l, decls[l - 1][i]) <==> Descriptor(true, i) in nest[l].upValues
  {
    forall j | 0 <= j < |nest[l].upValues|
      ensures Denotes(nest, decls, l, j) == decls[l - 1][i] <==> nest[l].upValues[j] == Descriptor(true, i) {
      var m, k := DenotesOutside(nest, decls, l, j);
      CaptureDenotes(nest, decls, l, j);
    }
  }

  /** A capture leads where a capture of the next function out leads exactly if it names that. */
  lemma {:induction false} ReachesCapture(nest: seq<Compiler>, decls: seq<seq<nat>>, l: nat, up: nat)
    requires Consistent(nest, decls) && 0 < l < |nest| && up < |nest[l - 1].upValues|
    ensures Reaches(nest, decls, l, Denotes(nest, decls, l - 1, up)) <==> Descriptor(false, up) in nest[l].upValues
  {
    forall j | 0 <= j < |nest[l].upValues|
      ensures Denotes(nest, decls, l, j) == Denotes(nest, decls, l - 1, up) <==> nest[l].upValues[j] == Descriptor(false, up) {
      var m, k := DenotesOutside(nest, decls, l, j);
      var m', k' := DenotesOutside(nest, decls, l - 1, up);
      CaptureDenotes(nest, decls, l, j);
      var d := nest[l].upValues[j];
      if !d.isLocal && Denotes(nest, decls, l, j) == Denotes(nest, decls, l - 1, up) { CapturesDiffer(nest, decls, l - 1, d.index, up); }
    }
  }

  lemma {:induction false} ReachesStays(nest: seq<Compiler>, nest': seq<Compiler>, decls: seq<seq<nat>>, l: nat, d: nat)
    requires Consistent(nest, decls) && Consistent(nest', decls) && Grown(nest, nest') && l < |nest|
    requires nest'[l].upValues == nest[l].upValues
    ensures Reaches(nest', decls, l, d) <==> Reaches(nest, decls, l, d)
  {
    forall j | 0 <= j < |nest[l].upValues| ensures Denotes(nest', decls, l, j) == Denotes(nest, decls, l, j) {
      DenotesStays(nest, nest', decls, l, j);
    }
  }

  /** One function further in, only its own captures are to be considered. */
  lemma {:induction false} BarredFurther(nest: seq<Compiler>, decls: seq<seq<nat>>, m: nat, i: nat, level: nat)
    requires Declared(nest, decls) && AllSound(nest) && m < level < |nest| && i < |nest[m].locals|
    ensures Barred(nest, decls, m, i, level) <==> Barred(nest, decls, m, i, level - 1) || Full(nest, decls, level, decls[m][i])
  {
    hide Full;
  }

  /** What is visible is a local somewhere. */
  lemma {:induction false} VisibleLocal(nest: seq<Compiler>, decls: seq<seq<nat>>, n: nat, x: string) returns (m: nat, i: nat)
    requires Declared(nest, decls) && n <= |nest| && Innermost(Scope(nest, decls, n), x).Some?
    ensures m < n && i < |nest[m].locals| && Innermost(Scope(nest, decls, n), x) == Some(decls[m][i])
  {
    if n > 0 {
      var here := Own(nest[n - 1].locals, decls[n - 1]);
      InnermostAppend(Scope(nest, decls, n - 1), here, x);
      if Innermost(here, x).Some? {
        m := n - 1;
        i := InnermostPlace(here, x);
      } else { m, i := VisibleLocal(nest, decls, n - 1, x); }
    }
  }

  lemma {:induction false} InnermostPlace(s: seq<Named>, x: string) returns (i: nat)
    requires Innermost(s, x).Some?
    ensures i < |s| && Innermost(s, x) == Some(s[i].decl)
    decreases |s|
  {
    if s[|s| - 1].name == x { i := |s| - 1; } else { i := InnermostPlace(s[..|s| - 1], x); }
  }

  // ----- what changes keep -----

  /** Functions up to `n` have only gained captures and captured marks. */
  ghost predicate Grown(nest: seq<Compiler>, nest': seq<Compiler>) {
    && |nest'| == |nest|
    && forall l :: 0 <= l < |nest| ==> Gains(nest[l], nest'[l])
  }

  ghost predicate Gains(c: Compiler, c': Compiler) {
    && c.upValues <= c'.upValues && c'.scopeDepth == c.scopeDepth && |c'.locals| == |c.locals|
    && forall i :: 0 <= i < |c.locals| ==>
         c'.locals[i].name == c.locals[i].name && c'.locals[i].depth == c.locals[i].depth
         && (c.locals[i].captured ==> c'.locals[i].captured)
  }

  lemma {:induction false} GrownTrans(a: seq<Compiler>, b: seq<Compiler>, c: seq<Compiler>)
    requires Grown(a, b) && Grown(b, c)
    ensures Grown(a, c)
  {
    forall l | 0 <= l < |a| ensures Gains(a[l], c[l]) { assert Gains(a[l], b[l]) && Gains(b[l], c[l]); }
  }

  /** What a capture denotes never changes while its function is being compiled. */
  lemma {:induction false} DenotesStays(nest: seq<Compiler>, nest': seq<Compiler>, decls: seq<seq<nat>>, l: nat, j: nat)
    requires Consistent(nest, decls) && Consistent(nest', decls) && Grown(nest, nest') && l < |nest| && j < |nest[l].upValues|
    ensures j < |nest'[l].upValues| && Denotes(nest', decls, l, j) == Denotes(nest, decls, l, j)
    decreases l
  {
    var d := nest[l].upValues[j];
    assert Sound(nest, l, d) && Gains(nest[l], nest'[l]) && nest'[l].upValues[j] == d;
    assert Sound(nest', l, d);
    if !d.isLocal { DenotesStays(nest, nest', decls, l - 1, d.index); }
  }

  lemma {:induction false} ScopeStays(nest: seq<Compiler>, nest': seq<Compiler>, decls: seq<seq<nat>>, n: nat)
    requires Declared(nest, decls) && Declared(nest', decls) && n <= |nest| && Grown(nest, nest')
    ensures Scope(nest', decls, n) == Scope(nest, decls, n)
  {
    if n > 0 {
      assert Gains(nest[n - 1], nest'[n - 1]);
      ScopeStays(nest, nest', decls, n - 1);
    }
  }

  lemma {:induction false} InnermostAppend(a: seq<Named>, b: seq<Named>, x: string)
    ensures Innermost(a + b, x) == if Innermost(b, x).Some? then Innermost(b, x) else Innermost(a, x)
    decreases |b|
  {
    if b == [] {
      assert a + b == a;
    } else {
      assert (a + b)[..|a + b| - 1] == a + b[..|b| - 1];
      InnermostAppend(a, b[..|b| - 1], x);
    }
  }

  /** `i` is the newest local called `x`, or -1. */
  ghost predicate Newest(locals: seq<LocalVar>, x: string, i: int) {
    && -1 <= i < |locals|
    && (i >= 0 ==> locals[i].name == x)
    && forall j :: i < j < |locals| ==> locals[j].name != x
  }

  lemma {:induction false} InnermostNamed(s: seq<Named>, x: string, i: int)
    requires -1 <= i < |s| && (i >= 0 ==> s[i].name == x) && forall j :: i < j < |s| ==> s[j].name != x
    ensures Innermost(s, x) == if i >= 0 then Some(s[i].decl) else None
    decreases |s|
  {
    if s != [] && i < |s| - 1 { InnermostNamed(s[..|s| - 1], x, i); }
  }

  /** The innermost declaration is a local of function `n - 1`, or lies further out. */
  lemma {:induction false} InnermostAt(nest: seq<Compiler>, decls: seq<seq<nat>>, n: nat, x: string, i: int)
    requires Declared(nest, decls) && 0 < n <= |nest| && Newest(nest[n - 1].locals, x, i)
    ensures Innermost(Scope(nest, decls, n), x) ==
            if i >= 0 then Some(decls[n - 1][i]) else Innermost(Scope(nest, decls, n - 1), x)
  {
    var here := Own(nest[n - 1].locals, decls[n - 1]);
    InnermostNamed(here, x, i);
    InnermostAppend(Scope(nest, decls, n - 1), here, x);
  }

  /** Every capture of `nest` is still there in `nest'` and leads to the same declaration. */
  ghost predicate SameCaptures(nest: seq<Compiler>, decls: seq<seq<nat>>, nest': seq<Compiler>, decls': seq<seq<nat>>) {
    && Consistent(nest, decls) && Consistent(nest', decls') && |nest| <= |nest'|
    && (forall l :: 0 <= l < |nest| ==> nest'[l].upValues == nest[l].upValues)
    && (forall l, j :: 0 <= l < |nest| && 0 <= j < |nest[l].upValues| ==>
          Denotes(nest', decls', l, j) == Denotes(nest, decls, l, j))
  }

  lemma {:induction false} OnlySelf(nest: seq<Compiler>, decls: seq<seq<nat>>)
    requires Consistent(nest, decls)
    ensures SameCaptures(nest, decls, nest, decls) && |decls| == |nest|
  {}

  lemma {:induction false} LengthsAgree(nest: seq<Compiler>, decls: seq<seq<nat>>)
    requires Consistent(nest, decls) && nest != []
    ensures |decls| == |nest| && |decls[|nest| - 1]| == |nest[|nest| - 1].locals|
  {}

  /** A local of the current scope already has this name. */
  predicate Redeclares(locals: seq<LocalVar>, depth: int, x: string) {
    if locals == [] then false
    else
      var top := locals[|locals| - 1];
      if top.depth != -1 && top.depth < depth then false
      else top.name == x || Redeclares(locals[..|locals| - 1], depth, x)
  }

  /** Only the locals and the depth of the innermost function change, so no capture, which can
      only name something outside its own function, is affected. */
  lemma {:induction false} TopReplaced(nest: seq<Compiler>, decls: seq<seq<nat>>, nextDecl: nat, c: Compiler, ds: seq<nat>)
    requires Consistent(nest, decls) && nest != []
    requires forall l, i :: 0 <= l < |decls| && 0 <= i < |decls[l]| ==> decls[l][i] < nextDecl
    requires c.upValues == nest[|nest| - 1].upValues && |ds| == |c.locals|
    requires ds <= decls[|nest| - 1] || ds == decls[|nest| - 1] + [nextDecl]
    ensures SameCaptures(nest, decls, nest[|nest| - 1 := c], decls[|nest| - 1 := ds])
  {
    var n := |nest| - 1;
    var nest', decls' := nest[n := c], decls[n := ds];
    forall l, j | 0 <= l < |nest'| && 0 <= j < |nest'[l].upValues| ensures Sound(nest', l, nest'[l].upValues[j]) {
      assert Sound(nest, l, nest[l].upValues[j]);
    }
    TopSeparate(decls, nextDecl, ds);
    forall l, j | 0 <= l < |nest| && 0 <= j < |nest[l].upValues|
      ensures Denotes(nest', decls', l, j) == Denotes(nest, decls, l, j) {
      DenotesAgree(nest, decls, nest', decls', l, j);
    }
  }

  lemma {:induction false} TopSeparate(decls: seq<seq<nat>>, nextDecl: nat, ds: seq<nat>)
    requires decls != [] && Separate(decls) && forall l, i :: 0 <= l < |decls| && 0 <= i < |decls[l]| ==> decls[l][i] < nextDecl
    requires ds <= decls[|decls| - 1] || ds == decls[|decls| - 1] + [nextDecl]
    ensures Separate(decls[|decls| - 1 := ds])
  {
    var d' := decls[|decls| - 1 := ds];
    forall l, i, m, j | 0 <= l < |d'| && 0 <= i < |d'[l]| && 0 <= m < |d'| && 0 <= j < |d'[m]| && d'[l][i] == d'[m][j]
      ensures l == m && i == j {
      assert i < |decls[l]| ==> d'[l][i] == decls[l][i];
      assert j < |decls[m]| ==> d'[m][j] == decls[m][j];
    }
  }

  /** Two nests that agree outside function `l` give its captures the same meaning. */
  lemma {:induction false} DenotesAgree(nest: seq<Compiler>, decls: seq<seq<nat>>, nest': seq<Compiler>, decls': seq<seq<nat>>, l: nat, j: nat)
    requires Declared(nest, decls) && AllSound(nest) && Declared(nest', decls') && AllSound(nest')
    requires l < |nest| && l < |nest'| && nest[..l] == nest'[..l] && decls[..l] == decls'[..l]
    requires nest[l].upValues == nest'[l].upValues && j < |nest[l].upValues|
    ensures Denotes(nest', decls', l, j) == Denotes(nest, decls, l, j)
    decreases l
  {
    var d := nest[l].upValues[j];
    assert Sound(nest, l, d);
    assert nest[..l][l - 1] == nest[l - 1] && nest'[..l][l - 1] == nest'[l - 1];
    assert decls[..l][l - 1] == decls[l - 1] && decls'[..l][l - 1] == decls'[l - 1];
    if !d.isLocal {
      assert nest[..l - 1] == nest[..l][..l - 1] && decls[..l - 1] == decls[..l][..l - 1];
      assert nest'[..l - 1] == nest'[..l][..l - 1] && decls'[..l - 1] == decls'[..l][..l - 1];
      DenotesAgree(nest, decls, nest', decls', l - 1, d.index);
    }
  }

  lemma {:induction false} FunctionAdded(nest: seq<Compiler>, decls: seq<seq<nat>>, c: Compiler, ds: seq<nat>)
    requires Consistent(nest, decls) && c.upValues == [] && |ds| == |c.locals| == 1
    requires forall l, i :: 0 <= l < |decls| && 0 <= i < |decls[l]| ==> decls[l][i] < ds[0]
    ensures SameCaptures(nest, decls, nest + [c], decls + [ds])
  {
    var nest', decls' := nest + [c], decls + [ds];
    forall l, j | 0 <= l < |nest'| && 0 <= j < |nest'[l].upValues| ensures Sound(nest', l, nest'[l].upValues[j]) {
      assert Sound(nest, l, nest[l].upValues[j]);
    }
    forall l, j | 0 <= l < |nest| && 0 <= j < |nest[l].upValues|
      ensures Denotes(nest', decls', l, j) == Denotes(nest, decls, l, j) {
      DenotesAgree(nest, decls, nest', decls', l, j);
    }
  }

  lemma {:induction false} FunctionRemoved(nest: seq<Compiler>, decls: seq<seq<nat>>)
    requires Consistent(nest, decls) && |nest| > 1
    ensures SameCaptures(nest[..|nest| - 1], decls[..|nest| - 1], nest, decls)
  {
    var nest', decls' := nest[..|nest| - 1], decls[..|nest| - 1];
    forall l, j | 0 <= l < |nest'| && 0 <= j < |nest'[l].upValues| ensures Sound(nest', l, nest'[l].upValues[j]) {
      assert Sound(nest, l, nest[l].upValues[j]);
    }
    forall l, j | 0 <= l < |nest'| && 0 <= j < |nest'[l].upValues|
      ensures Denotes(nest', decls', l, j) == Denotes(nest, decls, l, j) {
      DenotesAgree(nest, decls, nest', decls', l, j);
    }
  }

  // ----- resolving -----

  /** The `i`-th newest local is deeper than `depth` and leaves the stack by instruction `i`:
      if it is captured by closing its up-value, otherwise by a pop. */
  ghost predicate Gone(locals: seq<LocalVar>, depth: int, emitted: seq<Step>, i: nat) {
    && i < |emitted| <= |locals|
    && var gone := locals[|locals| - 1 - i];
       gone.depth > depth && emitted[i] == if gone.captured then CloseUpValue else Pop
  }

  /** Where a use of a name finds its value. */
  datatype Access = Local(slot: nat) | UpValueAt(index: nat) | Global

  class Nest {
    var compilers: seq<Compiler>
    var hadError: bool
    ghost var decls: seq<seq<nat>>
    ghost var nextDecl: nat

    ghost predicate Valid()
      reads this
    {
      && Consistent(compilers, decls) && compilers != []
      && forall l, i :: 0 <= l < |decls| && 0 <= i < |decls[l]| ==> decls[l][i] < nextDecl
    }

    /** The compiler of a script; slot zero of every function is taken. */
    constructor ()
      ensures Valid() && compilers == [Compiler([LocalVar("", 0, false)], 0, [])] && !hadError
    {
      compilers, hadError := [Compiler([LocalVar("", 0, false)], 0, [])], false;
      decls, nextDecl := [[0]], 1;
    }

    /** Starts compiling a function inside the current one. */
    method BeginFunction(self: string)
      requires Valid()
      modifies `compilers, `decls, `nextDecl
      ensures Valid() && compilers == old(compilers) + [Compiler([LocalVar(self, 0, false)], 0, [])]
      ensures decls == old(decls) + [[old(nextDecl)]]
      ensures SameCaptures(old(compilers), old(decls), compilers, decls)
    {
      var c := Compiler([LocalVar(self, 0, false)], 0, []);
      FunctionAdded(compilers, decls, c, [nextDecl]);
      compilers := compilers + [c];
      decls, nextDecl := decls + [[nextDecl]], nextDecl + 1;
    }

    /** Ends the current function; its captures become the operands of the instruction that
        creates the closure. Every local they name stays marked as captured. */
    method EndFunction() returns (captures: seq<Descriptor>)
      requires Valid() && |compilers| > 1
      modifies `compilers, `decls
      ensures Valid() && compilers == old(compilers)[..|old(compilers)| - 1] && decls == old(decls)[..|old(decls)| - 1]
      ensures captures == old(compilers)[|old(compilers)| - 1].upValues
      ensures forall d :: d in captures && d.isLocal ==>
                var locals := compilers[|compilers| - 1].locals; d.index < |locals| && locals[d.index].captured
      ensures SameCaptures(compilers, decls, old(compilers), old(decls))
    {
      var n := |compilers| - 1;
      captures := compilers[n].upValues;
      forall d | d in captures ensures Sound(compilers, n, d) {
        var j :| 0 <= j < |captures| && captures[j] == d;
        assert Sound(compilers, n, compilers[n].upValues[j]);
      }
      FunctionRemoved(compilers, decls);
      compilers := compilers[..n];
      decls := decls[..n];
    }

    /** Declares a variable: a new local, not yet initialized; at depth 0 variables are global and
        need no declaration. */
    method DeclareVariable(x: string)
      requires Valid() && !hadError
      modifies `compilers, `decls, `nextDecl, `hadError
      ensures Valid() && SameCaptures(old(compilers), old(decls), compilers, decls)
      ensures var n := |old(compilers)| - 1; var c := old(compilers)[n];
              && hadError == (c.scopeDepth != 0 && (|c.locals| == MAX_LOCALS || Redeclares(c.locals, c.scopeDepth, x)))
              && (!hadError && c.scopeDepth != 0 ==>
                    && compilers == old(compilers)[n := c.(locals := c.locals + [LocalVar(x, -1, false)])]
                    && decls == old(decls)[n := old(decls)[n] + [old(nextDecl)]])
              && (hadError || c.scopeDepth == 0 ==> compilers == old(compilers) && decls == old(decls))
    {
      hide Consistent;
      var n := |compilers| - 1;
      var c := compilers[n];
      OnlySelf(compilers, decls);
      if c.scopeDepth == 0 { return; }
      var i := |c.locals| - 1;
      assert c.locals[..i + 1] == c.locals;
      LengthsAgree(compilers, decls);
      while i >= 0 && !(c.locals[i].depth != -1 && c.locals[i].depth < c.scopeDepth)
        invariant -1 <= i < |c.locals| && !hadError
        invariant Redeclares(c.locals, c.scopeDepth, x) == Redeclares(c.locals[..i + 1], c.scopeDepth, x)
      {
        assert c.locals[..i + 1][..i] == c.locals[..i];
        if c.locals[i].name == x {
          hadError := true;
          return;
        }
        i := i - 1;
      }
      if |c.locals| == MAX_LOCALS {
        hadError := true;
        return;
      }
      var c' := c.(locals := c.locals + [LocalVar(x, -1, false)]);
      TopReplaced(compilers, decls, nextDecl, c', decls[n] + [nextDecl]);
      compilers := compilers[n := c'];
      decls, nextDecl := decls[n := decls[n] + [nextDecl]], nextDecl + 1;
    }

    /** The newest local becomes readable. */
    method MarkInitialized()
      requires Valid() && compilers[|compilers| - 1].locals != []
      modifies `compilers
      ensures Valid() && SameCaptures(old(compilers), decls, compilers, decls)
      ensures var n := |old(compilers)| - 1; var c := old(compilers)[n]; var i := |c.locals| - 1;
              compilers == if c.scopeDepth == 0 then old(compilers)
                           else old(compilers)[n := c.(locals := c.locals[i := c.locals[i].(depth := c.scopeDepth)])]
    {
      hide Consistent;
      var n := |compilers| - 1;
      var c := compilers[n];
      OnlySelf(compilers, decls);
      if c.scopeDepth == 0 { return; }
      var i := |c.locals| - 1;
      var c' := c.(locals := c.locals[i := c.locals[i].(depth := c.scopeDepth)]);
      LengthsAgree(compilers, decls);
      TopReplaced(compilers, decls, nextDecl, c', decls[n]);
      compilers := compilers[n := c'];
      assert decls == decls[n := decls[n]];
    }

    method BeginScope()
      requires Valid()
      modifies `compilers
      ensures Valid() && SameCaptures(old(compilers), decls, compilers, decls)
      ensures var n := |old(compilers)| - 1; compilers == old(compilers)[n := old(compilers)[n].(scopeDepth := old(compilers)[n].scopeDepth + 1)]
    {
      hide Consistent;
      var n := |compilers| - 1;
      LengthsAgree(compilers, decls);
      TopReplaced(compilers, decls, nextDecl, compilers[n].(scopeDepth := compilers[n].scopeDepth + 1), decls[n]);
      compilers := compilers[n := compilers[n].(scopeDepth := compilers[n].scopeDepth + 1)];
      assert decls == decls[n := decls[n]];
    }

    /** Leaves a scope: its locals go, newest first, a captured one by closing its up-value
        and any other by a plain pop. */
    method EndScope() returns (emitted: seq<Step>)
      requires Valid()
      modifies `compilers, `decls
      ensures Valid() && SameCaptures(old(compilers), old(decls), compilers, decls)
      ensures |emitted| <= |old(compilers)[|old(compilers)| - 1].locals|
      ensures var n := |old(compilers)| - 1; var c := old(compilers)[n]; var kept := c.locals[..|c.locals| - |emitted|];
              var depth := c.scopeDepth - 1;
              && compilers == old(compilers)[n := c.(scopeDepth := depth, locals := kept)]
              && (kept == [] || kept[|kept| - 1].depth <= depth)
              && forall i :: 0 <= i < |emitted| ==> Gone(c.locals, depth, emitted, i)
    {
      hide Consistent;
      var n := |compilers| - 1;
      var c := compilers[n];
      var depth := c.scopeDepth - 1;
      var count := |c.locals|;
      emitted := [];
      while count > 0 && c.locals[count - 1].depth > depth
        invariant 0 <= count && count + |emitted| == |c.locals| && compilers == old(compilers) && decls == old(decls)
        invariant forall i :: 0 <= i < |emitted| ==> Gone(c.locals, depth, emitted, i)
      {
        ghost var before := emitted;
        emitted := emitted + [if c.locals[count - 1].captured then CloseUpValue else Pop];
        count := count - 1;
        forall i | 0 <= i < |emitted| ensures Gone(c.locals, depth, emitted, i) {
          if i < |before| { assert Gone(c.locals, depth, before, i); }
        }
      }
      var c' := c.(scopeDepth := depth, locals := c.locals[..count]);
      LengthsAgree(compilers, decls);
      TopReplaced(compilers, decls, nextDecl, c', decls[n][..count]);
      compilers := compilers[n := c'];
      decls := decls[n := decls[n][..count]];
    }

    method ResolveLocal(level: nat, x: string) returns (i: int)
      requires level < |compilers|
      modifies `hadError
      ensures Newest(compilers[level].locals, x, i)
      ensures hadError == (old(hadError) || (i >= 0 && compilers[level].locals[i].depth == -1))
    {
      var locals := compilers[level].locals;
      i := |locals| - 1;
      while i >= 0
        invariant -1 <= i < |locals| && hadError == old(hadError)
        invariant forall j :: i < j < |locals| ==> locals[j].name != x
      {
        if locals[i].name == x {
          if locals[i].depth == -1 { hadError := true; }
          return;
        }
        i := i - 1;
      }
    }

    /** The place of a capture among those of function `level`, adding it if it is new. */
    method AddUpValue(level: nat, index: nat, isLocal: bool) returns (r: nat)
      requires Valid() && !hadError && Sound(compilers, level, Descriptor(isLocal, index))
      modifies `compilers, `hadError
      ensures var ups := old(compilers)[level].upValues; hadError <==> |ups| == MAX_CAPTURES && Descriptor(isLocal, index) !in ups
      ensures hadError ==> r == 0 && compilers == old(compilers)
      ensures !hadError ==>
        && Valid() && Grown(old(compilers), compilers) && OnlyUpTo(old(compilers), compilers, level)
        && r < |compilers[level].upValues| && compilers[level].upValues[r] == Descriptor(isLocal, index)
    {
      var ups := compilers[level].upValues;
      var d := Descriptor(isLocal, index);
      for i := 0 to |ups|
        invariant !hadError && compilers == old(compilers) && forall j :: 0 <= j < i ==> ups[j] != d
      {
        if ups[i] == d { return i; }
      }
      if |ups| == MAX_CAPTURES {
        hadError := true;
        return 0;
      }
      CaptureAdded(compilers, decls, level, d);
      compilers := compilers[level := compilers[level].(upValues := ups + [d])];
      r := |ups|;
    }

    /** Looks for `x` outside function `level`, capturing it for every function in between. */
    method ResolveUpValue(level: nat, x: string) returns (r: int)
      requires Valid() && !hadError && level < |compilers|
      modifies `compilers, `hadError
      ensures hadError <==> Blocked(old(compilers), decls, level, level, x)
      ensures -1 <= r
      ensures !hadError ==>
        && Valid() && Grown(old(compilers), compilers) && OnlyUpTo(old(compilers), compilers, level)
        && r < |compilers[level].upValues|
        && Innermost(Scope(old(compilers), decls, level), x) ==
           if r >= 0 then Some(Denotes(compilers, decls, level, r)) else None
      decreases level
    {
      hide Consistent, Grown, Innermost, Newest, Blocked, Barred, Full, Reaches;
      GrownSelf(compilers);
      DeclaredOf(compilers, decls);
      if level == 0 {
        OutsideNothing(compilers, decls, x);
        NothingBlocked(compilers, decls, 0, 0, x);
        return -1;
      }
      var local := ResolveLocal(level - 1, x);
      NewestBounds(compilers[level - 1].locals, x, local);
      LengthsAgree(compilers, decls);
      InnermostAt(compilers, decls, level, x, local);
      if local != -1 {
        BlockedHere(compilers, decls, level, x, local);
        if hadError { return 0; }
        MarkedCaptured(compilers, decls, level - 1, local);
        compilers := compilers[level - 1 := Marked(compilers[level - 1], local)];
        ghost var marked := compilers;
        r := AddUpValue(level, local, true);
        if !hadError {
          GrownTrans(old(compilers), marked, compilers);
          CaptureDenotes(compilers, decls, level, r);
        }
        return;
      }
      var up := ResolveUpValue(level - 1, x);
      BlockedFurther(old(compilers), compilers, decls, level, x, up, hadError);
      if hadError || up == -1 { return up; }
      ghost var between := compilers;
      GrownLength(old(compilers), compilers);
      r := AddUpValue(level, up, false);
      if !hadError {
        GrownTrans(old(compilers), between, compilers);
        DenotesStays(between, compilers, decls, level - 1, up);
        CaptureDenotes(compilers, decls, level, r);
      }
    }

    /** A use of `x` in the function being compiled: what it accesses is the innermost
        visible declaration of `x`, and it is global exactly when there is none. It is an
        error exactly if that declaration is in its own initializer or a function between has
        no room for its capture. */
    method NamedVariable(x: string) returns (a: Access)
      requires Valid() && !hadError
      modifies `compilers, `hadError
      ensures hadError <==> Blocked(old(compilers), decls, |old(compilers)|, |old(compilers)| - 1, x)
      ensures !hadError ==>
        && Valid() && Grown(old(compilers), compilers)
        && var n := |compilers|; var found := Innermost(Scope(old(compilers), decls, n), x);
           match a
           case Local(i) => i < |compilers[n - 1].locals| && found == Some(decls[n - 1][i])
           case UpValueAt(j) => j < |compilers[n - 1].upValues| && found == Some(Denotes(compilers, decls, n - 1, j))
           case Global => found == None
    {
      hide Innermost, Scope, Denotes, Consistent, Blocked, Barred;
      DeclaredOf(compilers, decls);
      var top := |compilers| - 1;
      var i := ResolveLocal(top, x);
      InnermostAt(compilers, decls, top + 1, x, i);
      BlockedTop(compilers, decls, x, i);
      if i != -1 {
        GrownSelf(compilers);
        return Local(i);
      }
      var j := ResolveUpValue(top, x);
      a := if j != -1 then UpValueAt(j) else Global;
    }
  }

  /** Functions further in than `level` are as they were. */
  ghost predicate OnlyUpTo(nest: seq<Compiler>, nest': seq<Compiler>, level: nat) {
    |nest'| == |nest| && forall l :: level < l < |nest| ==> nest'[l] == nest[l]
  }

  /** The name is a local of the next function out. */
  lemma {:induction false} BlockedHere(nest: seq<Compiler>, decls: seq<seq<nat>>, level: nat, x: string, i: nat)
    requires Consistent(nest, decls) && 0 < level < |nest| && i < |nest[level - 1].locals|
    requires Innermost(Scope(nest, decls, level), x) == Some(decls[level - 1][i])
    ensures Blocked(nest, decls, level, level, x) <==>
            || nest[level - 1].locals[i].depth == -1
            || (|nest[level].upValues| == MAX_CAPTURES && Descriptor(true, i) !in nest[level].upValues)
  {
    hide Innermost, Scope, Blocked, Reaches;
    BlockedAt(nest, decls, level, level, x, level - 1, i);
    ReachesLocal(nest, decls, level, i);
    BarredFurther(nest, decls, level - 1, i, level);
  }

  /** The name lies further out; the functions out there have been dealt with. */
  lemma {:induction false} BlockedFurther(nest: seq<Compiler>, nest': seq<Compiler>, decls: seq<seq<nat>>, level: nat, x: string, up: int, failed: bool)
    requires Consistent(nest, decls) && 0 < level < |nest| && Newest(nest[level - 1].locals, x, -1)
    requires failed <==> Blocked(nest, decls, level - 1, level - 1, x)
    requires !failed ==>
      && Consistent(nest', decls) && Grown(nest, nest') && OnlyUpTo(nest, nest', level - 1) && -1 <= up < |nest'[level - 1].upValues|
      && Innermost(Scope(nest, decls, level - 1), x) == if up >= 0 then Some(Denotes(nest', decls, level - 1, up)) else None
    ensures Blocked(nest, decls, level, level, x) <==>
            failed || (up >= 0 && |nest'[level].upValues| == MAX_CAPTURES && Descriptor(false, up) !in nest'[level].upValues)
  {
    hide Innermost, Scope, Blocked, Barred, Reaches, Grown;
    InnermostAt(nest, decls, level, x, -1);
    if Innermost(Scope(nest, decls, level), x) == None {
      NothingBlocked(nest, decls, level, level, x);
      NothingBlocked(nest, decls, level - 1, level - 1, x);
    } else {
      var m, i := VisibleLocal(nest, decls, level - 1, x);
      BlockedAt(nest, decls, level, level, x, m, i);
      BlockedAt(nest, decls, level - 1, level - 1, x, m, i);
      BarredFurther(nest, decls, m, i, level);
      if !failed {
        ReachesCapture(nest', decls, level, up);
        ReachesStays(nest, nest', decls, level, decls[m][i]);
      }
    }
  }

  lemma {:induction false} BlockedTop(nest: seq<Compiler>, decls: seq<seq<nat>>, x: string, i: int)
    requires Consistent(nest, decls) && nest != [] && Newest(nest[|nest| - 1].locals, x, i)
    ensures var n := |nest|; Blocked(nest, decls, n, n - 1, x) <==>
            if i >= 0 then nest[n - 1].locals[i].depth == -1 else Blocked(nest, decls, n - 1, n - 1, x)
  {
    hide Innermost, Scope, Blocked, Full;
    var n := |nest|;
    InnermostAt(nest, decls, n, x, i);
    if i >= 0 { BlockedAt(nest, decls, n, n - 1, x, n - 1, i); }
    else if Innermost(Scope(nest, decls, n - 1), x) == None {
      NothingBlocked(nest, decls, n, n - 1, x);
      NothingBlocked(nest, decls, n - 1, n - 1, x);
    } else {
      var m, k := VisibleLocal(nest, decls, n - 1, x);
      BlockedAt(nest, decls, n, n - 1, x, m, k);
      BlockedAt(nest, decls, n - 1, n - 1, x, m, k);
    }
  }

  function Marked(c: Compiler, i: nat): Compiler
    requires i < |c.locals|
  {
    c.(locals := c.locals[i := c.locals[i].(captured := true)])
  }

  lemma {:induction false} OutsideNothing(nest: seq<Compiler>, decls: seq<seq<nat>>, x: string)
    requires Declared(nest, decls)
    ensures Innermost(Scope(nest, decls, 0), x) == None
  {}

  lemma {:induction false} DeclaredOf(nest: seq<Compiler>, decls: seq<seq<nat>>)
    requires Consistent(nest, decls)
    ensures Declared(nest, decls)
  {}

  lemma {:induction false} GrownLength(nest: seq<Compiler>, nest': seq<Compiler>)
    requires Grown(nest, nest')
    ensures |nest'| == |nest|
  {}

  lemma {:induction false} NewestBounds(locals: seq<LocalVar>, x: string, i: int)
    requires Newest(locals, x, i)
    ensures -1 <= i < |locals|
  {}

  /** A capture means what it names in the next function out. */
  lemma {:induction false} CaptureDenotes(nest: seq<Compiler>, decls: seq<seq<nat>>, l: nat, r: nat)
    requires Consistent(nest, decls) && l < |nest| && r < |nest[l].upValues|
    ensures var d := nest[l].upValues[r];
            && Sound(nest, l, d) && |decls| == |nest| && |decls[l - 1]| == |nest[l - 1].locals|
            && Denotes(nest, decls, l, r) == if d.isLocal then decls[l - 1][d.index] else Denotes(nest, decls, l - 1, d.index)
  {
    assert Sound(nest, l, nest[l].upValues[r]);
  }

  lemma {:induction false} GrownSelf(nest: seq<Compiler>)
    ensures Grown(nest, nest)
  {}

  lemma {:induction false} MarkedCaptured(nest: seq<Compiler>, decls: seq<seq<nat>>, l: nat, i: nat)
    requires Consistent(nest, decls) && l < |nest| && i < |nest[l].locals|
    ensures var nest' := nest[l := Marked(nest[l], i)]; Consistent(nest', decls) && Grown(nest, nest')
  {
    var nest' := nest[l := Marked(nest[l], i)];
    forall m, j | 0 <= m < |nest'| && 0 <= j < |nest'[m].upValues| ensures Sound(nest', m, nest'[m].upValues[j]) {
      assert Sound(nest, m, nest[m].upValues[j]);
    }
    forall m | 0 <= m < |nest| ensures Gains(nest[m], nest'[m]) {}
  }

  lemma {:induction false} CaptureAdded(nest: seq<Compiler>, decls: seq<seq<nat>>, l: nat, d: Descriptor)
    requires Consistent(nest, decls) && Sound(nest, l, d) && d !in nest[l].upValues
    ensures var nest' := nest[l := nest[l].(upValues := nest[l].upValues + [d])]; Consistent(nest', decls) && Grown(nest, nest')
  {
    var nest' := nest[l := nest[l].(upValues := nest[l].upValues + [d])];
    forall m, j | 0 <= m < |nest'| && 0 <= j < |nest'[m].upValues| ensures Sound(nest', m, nest'[m].upValues[j]) {
      if m != l || j < |nest[l].upValues| { assert Sound(nest, m, nest[m].upValues[j]); }
    }
    forall m | 0 <= m < |nest| ensures Gains(nest[m], nest'[m]) {}
  }

  // ----- from captures to cells -----

  /** A running frame of function `l`: each of its slots holds the cell of the declaration the
      compiler numbered it for, and each of its captured variables that of the declaration
      its capture denotes. */
  ghost predicate FrameMatches(s: Cells, cellOf: nat -> nat, nest: seq<Compiler>, decls: seq<seq<nat>>, l: nat)
    requires Consistent(nest, decls) && l < |nest|
  {
    && s.Running() < |s.closures| && |s.closures[s.Running()]| >= |nest[l].upValues|
    && s.Base() + |nest[l].locals| <= |s.slots|
    && (forall i :: 0 <= i < |nest[l].locals| ==> s.slots[s.Base() + i] == cellOf(decls[l][i]))
    && (forall j :: 0 <= j < |nest[l].upValues| ==> s.closures[s.Running()][j] == cellOf(Denotes(nest, decls, l, j)))
  }

  /** A closure made in such a frame from the captures of the function just compiled holds,
      for each capture, the very cell of the declaration it denotes. */
  lemma {:induction false} ClosureGetsItsCells(s: Cells, cellOf: nat -> nat, nest: seq<Compiler>, decls: seq<seq<nat>>)
    requires Consistent(nest, decls) && |nest| > 1 && FrameMatches(s, cellOf, nest, decls, |nest| - 2)
    ensures var l := |nest| - 1; var captures := nest[l].upValues;
            && (forall d :: d in captures ==> Found(s, d, |s.slots|))
            && forall j :: 0 <= j < |captures| ==> CellsOf(s, captures)[j] == cellOf(Denotes(nest, decls, l, j))
  {
    var l := |nest| - 1;
    var captures := nest[l].upValues;
    forall d | d in captures ensures Found(s, d, |s.slots|) {
      var j :| 0 <= j < |captures| && captures[j] == d;
      assert Sound(nest, l, nest[l].upValues[j]);
    }
    forall j | 0 <= j < |captures| ensures CellsOf(s, captures)[j] == cellOf(Denotes(nest, decls, l, j)) {
      assert Sound(nest, l, nest[l].upValues[j]);
    }
  }

  // ----- leaving a scope -----

  /** The stack ends with the locals of the running frame, and every one of them that a closure
      has captured is marked so by the compiler. */
  ghost predicate TopMatches(s: Cells, locals: seq<LocalVar>) {
    && s.Base() + |locals| == |s.slots|
    && forall i :: 0 <= i < |locals| && s.slots[s.Base() + i] in s.captured ==> locals[i].captured
  }

  /** In such a frame the instructions that end a scope never pop a captured slot plainly, which
      is what the cells of closures rely on. */
  lemma {:induction false} ScopeExitEnabled(s: Cells, locals: seq<LocalVar>, depth: int, emitted: seq<Step>)
    requires TopMatches(s, locals) && |emitted| <= |locals|
    requires forall i :: 0 <= i < |emitted| ==> Gone(locals, depth, emitted, i)
    ensures AllEnabled(s, emitted)
    decreases |emitted|
  {
    if emitted != [] {
      var n := |locals| - 1;
      assert Gone(locals, depth, emitted, 0);
      assert s.slots[s.Base() + n] == s.slots[|s.slots| - 1];
      var t, front, rest := Next(s, emitted[0]), locals[..n], emitted[1..];
      assert t.slots == s.slots[..|s.slots| - 1] && t.frames == s.frames && t.captured == s.captured;
      forall i | 0 <= i < |rest| ensures Gone(front, depth, rest, i) {
        assert Gone(locals, depth, emitted, i + 1);
      }
      ScopeExitEnabled(t, front, depth, rest);
    }
  }
}
