/** Sorting a list of values in place. Both loops run over the whole list, and lists inside
    the list are sorted as they are swapped. */
module Sorting {

  datatype Kind =
    | OString | ORange | OList | ODict | OFile | OBytes
    | OUpValue | OBoundMethod | OClosure | OFunction | OInstance | ONative | OClass
    | OModule | OSwitch | OPtr

  /** Places in the enumeration of object types. */
  function Ordinal(k: Kind): nat {
    match k
    case OString => 0 case ORange => 1 case OList => 2 case ODict => 3 case OFile => 4 case OBytes => 5
    case OUpValue => 6 case OBoundMethod => 7 case OClosure => 8 case OFunction => 9 case OInstance => 10
    case ONative => 11 case OClass => 12 case OModule => 13 case OSwitch => 14 case OPtr => 15
  }

  /** Objects are equal only to themselves, so an object is its kind and its identity. */
  datatype Item = Nil | Bool(b: bool) | Number(n: real) | Object(kind: Kind, id: nat) | Empty

  /** What comparing two objects looks at: the bytes of a string or of a file's path, and the
      arity, lower bound or number of elements of the other kinds. Sorting changes neither. */
  datatype Attributes = Attributes(text: nat -> seq<nat>, size: nat -> int)

  predicate Textual(k: Kind) { k == OString || k == OFile }

  predicate Sized(k: Kind) {
    k == OFunction || k == OClosure || k == ORange || k == OClass || k == OList || k == ODict || k == OBytes
  }

  predicate TextAtMost(s: seq<nat>, t: seq<nat>) {
    if s == [] then true
    else if t == [] then false
    else if s[0] != t[0] then s[0] < t[0]
    else TextAtMost(s[1..], t[1..])
  }

  /** The greater of two values. */
  function FindMax(at: Attributes, a: Item, b: Item): Item {
    if a.Nil? then b
    else if a.Bool? then
      if b.Nil? || (b.Bool? && !b.b) then a else b
    else if a.Number? then
      if b.Nil? || b.Bool? then a
      else if b.Number? then (if a.n >= b.n then a else b)
      else b
    else if a.Object? then
      if b.Object? && a.kind == b.kind && Textual(a.kind) then
        (if TextAtMost(at.text(b.id), at.text(a.id)) then a else b)
      else if b.Object? && a.kind == b.kind && Sized(a.kind) then
        (if at.size(a.id) >= at.size(b.id) then a else b)
      else if b.Object? then
        (if Ordinal(a.kind) >= Ordinal(b.kind) then a else b)
      else a
    else a
  }

  // ----- the order behind it -----

  function Rank(a: Item): nat {
    match a
    case Nil => 0
    case Bool(b) => if b then 2 else 1
    case Number(_) => 3
    case Object(_, _) => 4
    case Empty => 5
  }

  /** Nil, false, true, numbers, then objects by type and what their type is compared by. */
  predicate AtMost(at: Attributes, a: Item, b: Item) {
    if Rank(a) != Rank(b) then Rank(a) < Rank(b)
    else if a.Number? && b.Number? then a.n <= b.n
    else if a.Object? && b.Object? then
      if Ordinal(a.kind) != Ordinal(b.kind) then Ordinal(a.kind) < Ordinal(b.kind)
      else if Textual(a.kind) then TextAtMost(at.text(a.id), at.text(b.id))
      else Sized(a.kind) ==> at.size(a.id) <= at.size(b.id)
    else true
  }

  // ----- the order in plain words -----

  /** One text comes before another in the dictionary, or they are equal: it is a prefix of the
      other, or where they first differ it has the smaller byte. */
  ghost predicate Dictionary(s: seq<nat>, t: seq<nat>) {
    s <= t || exists i :: 0 <= i < |s| && i < |t| && s[..i] == t[..i] && s[i] < t[i]
  }

  lemma {:induction false} TextInDictionary(s: seq<nat>, t: seq<nat>)
    ensures TextAtMost(s, t) <==> Dictionary(s, t)
    decreases |s|
  {
    if s != [] && t != [] {
      if s[0] == t[0] {
        TextInDictionary(s[1..], t[1..]);
        SameFirst(s, t);
      } else {
        assert s[0] < t[0] ==> s[..0] == t[..0];
        assert forall i :: 0 < i < |s| && i < |t| ==> s[..i][0] == s[0] && t[..i][0] == t[0];
      }
    }
  }

  lemma {:induction false} SameFirst(s: seq<nat>, t: seq<nat>)
    requires s != [] && t != [] && s[0] == t[0]
    ensures Dictionary(s, t) <==> Dictionary(s[1..], t[1..])
  {
    var u, v := s[1..], t[1..];
    assert s == [s[0]] + u && t == [t[0]] + v;
    if u <= v { assert s <= t; }
    if s <= t { assert u == t[1..|s|] && v[..|u|] == t[1..|s|]; }
    if i :| 0 <= i < |s| && i < |t| && s[..i] == t[..i] && s[i] < t[i] {
      assert u[..i - 1] == s[..i][1..] && v[..i - 1] == t[..i][1..];
      assert u[i - 1] < v[i - 1];
    }
    if i :| 0 <= i < |u| && i < |v| && u[..i] == v[..i] && u[i] < v[i] {
      assert s[..i + 1] == [s[0]] + u[..i] && t[..i + 1] == [t[0]] + v[..i];
      assert s[i + 1] < t[i + 1];
    }
  }

  /** The types of objects, as they are enumerated. */
  const TYPES: seq<Kind> := [OString, ORange, OList, ODict, OFile, OBytes, OUpValue, OBoundMethod, OClosure, OFunction,
                             OInstance, ONative, OClass, OModule, OSwitch, OPtr]

  /** Nil, false, true, numbers, objects; numbers by value; objects of different types as the types
      are enumerated; strings and files as in the dictionary, and other objects that are
      compared by a number by that number. */
  ghost predicate InPlainOrder(at: Attributes, a: Item, b: Item) {
    && (b.Nil? ==> a.Nil?)
    && (b == Bool(false) ==> a.Nil? || a == Bool(false))
    && (b == Bool(true) ==> a.Nil? || a.Bool?)
    && (b.Number? ==> a.Nil? || a.Bool? || (a.Number? && a.n <= b.n))
    && (a.Object? && b.Object? && a.kind != b.kind ==> exists i, j :: 0 <= i < j < |TYPES| && TYPES[i] == a.kind && TYPES[j] == b.kind)
    && (a.Object? && b.Object? && a.kind == b.kind ==>
          match a.kind
          case OString => Dictionary(at.text(a.id), at.text(b.id))
          case OFile => Dictionary(at.text(a.id), at.text(b.id))
          case ORange => at.size(a.id) <= at.size(b.id)
          case OList => at.size(a.id) <= at.size(b.id)
          case ODict => at.size(a.id) <= at.size(b.id)
          case OBytes => at.size(a.id) <= at.size(b.id)
          case OClosure => at.size(a.id) <= at.size(b.id)
          case OFunction => at.size(a.id) <= at.size(b.id)
          case OClass => at.size(a.id) <= at.size(b.id)
          case _ => true)
  }

  lemma {:induction false} TypesListed(k: Kind)
    ensures Ordinal(k) < |TYPES| && TYPES[Ordinal(k)] == k && forall i :: 0 <= i < |TYPES| && TYPES[i] == k ==> i == Ordinal(k)
  {
    assert forall i :: 0 <= i < |TYPES| ==> Ordinal(TYPES[i]) == i;
  }

  /** The order that sorting follows is the plain one. */
  lemma {:induction false} OrderIsPlain(at: Attributes, a: Item, b: Item)
    requires !a.Empty? && !b.Empty?
    ensures AtMost(at, a, b) <==> InPlainOrder(at, a, b)
  {
    hide TextAtMost, Dictionary, Ordinal;
    if a.Object? && b.Object? {
      TypesListed(a.kind);
      TypesListed(b.kind);
      TextInDictionary(at.text(a.id), at.text(b.id));
    }
  }

  lemma {:induction false} TextTotal(s: seq<nat>, t: seq<nat>)
    ensures TextAtMost(s, t) || TextAtMost(t, s)
    decreases |s|
  {
    if s != [] && t != [] { TextTotal(s[1..], t[1..]); }
  }

  lemma {:induction false} TextTrans(s: seq<nat>, t: seq<nat>, u: seq<nat>)
    requires TextAtMost(s, t) && TextAtMost(t, u)
    ensures TextAtMost(s, u)
    decreases |s|
  {
    if s != [] && s[0] == t[0] && t[0] == u[0] { TextTrans(s[1..], t[1..], u[1..]); }
  }

  lemma SameOrdinal(a: Kind, b: Kind)
    ensures Ordinal(a) == Ordinal(b) ==> a == b
  {}

  lemma {:induction false} Total(at: Attributes, a: Item, b: Item)
    ensures AtMost(at, a, b) || AtMost(at, b, a)
  {
    hide TextAtMost;
    if a.Object? && b.Object? {
      SameOrdinal(a.kind, b.kind);
      TextTotal(at.text(a.id), at.text(b.id));
    }
  }

  lemma {:induction false} Transitive(at: Attributes, a: Item, b: Item, c: Item)
    requires AtMost(at, a, b) && AtMost(at, b, c)
    ensures AtMost(at, a, c)
  {
    hide TextAtMost;
    if a.Object? && b.Object? && c.Object? {
      SameOrdinal(a.kind, b.kind);
      SameOrdinal(b.kind, c.kind);
      if TextAtMost(at.text(a.id), at.text(b.id)) && TextAtMost(at.text(b.id), at.text(c.id)) {
        TextTrans(at.text(a.id), at.text(b.id), at.text(c.id));
      }
    }
  }

  /** `FindMax` picks the greater by this order, its first argument on a tie. */
  lemma {:induction false} MaxByOrder(at: Attributes, a: Item, b: Item)
    requires !a.Empty? && !b.Empty?
    ensures FindMax(at, a, b) == if AtMost(at, b, a) then a else b
  {
    hide TextAtMost;
    if a.Object? && b.Object? { SameOrdinal(a.kind, b.kind); }
  }

  // ----- one comparison -----

  /** What one turn of the inner loop does to the list. */
  function Turn(at: Attributes, s: seq<Item>, i: nat, j: nat): seq<Item>
    requires i < |s| && j < |s|
  {
    if s[j] == FindMax(at, s[i], s[j]) then s[i := s[j]][j := s[i]] else s
  }

  lemma {:induction false} TurnPermutes(at: Attributes, s: seq<Item>, i: nat, j: nat)
    requires i < |s| && j < |s|
    ensures multiset(Turn(at, s, i, j)) == multiset(s) && |Turn(at, s, i, j)| == |s|
  {}

  ghost predicate Sorted(at: Attributes, s: seq<Item>, n: nat)
    requires n <= |s|
  {
    forall k, l :: 0 <= k < l < n ==> AtMost(at, s[k], s[l])
  }

  /** `s[m]` is at least everything before `n`. */
  ghost predicate Tops(at: Attributes, s: seq<Item>, m: nat, n: nat)
    requires m < |s| && n <= |s|
  {
    forall k :: 0 <= k < n ==> AtMost(at, s[k], s[m])
  }

  /** Before turn `j` of pass `i`: the first `i` values are in order; until the pass reaches
      its own place it carries a value that tops the places passed, and some later place
      still holds a greatest value; from then on place `i` holds a greatest value. */
  ghost predicate Passing(at: Attributes, s: seq<Item>, i: nat, j: nat) {
    && i < |s| && j <= |s|
    && Sorted(at, s, i)
    && Tops(at, s, i, if j <= i || i == 0 then j else |s|)
    && (i > 0 && j < i ==> Tops(at, s, i - 1, |s|))
    && (i > 0 && j == i ==> Tops(at, s, i, |s|))
  }

  ghost predicate NoneEmpty(s: seq<Item>) {
    forall k :: 0 <= k < |s| ==> !s[k].Empty?
  }

  lemma {:induction false} TurnIs(at: Attributes, s: seq<Item>, i: nat, j: nat)
    requires i < |s| && j < |s| && NoneEmpty(s)
    ensures NoneEmpty(Turn(at, s, i, j))
    ensures Turn(at, s, i, j) == if AtMost(at, s[j], s[i]) then s else s[i := s[j]][j := s[i]]
  {
    hide FindMax, AtMost;
    MaxByOrder(at, s[i], s[j]);
    if s[i] == s[j] { Total(at, s[i], s[j]); assert s[i := s[j]][j := s[i]] == s; }
  }

  /** A turn that swaps nothing. */
  lemma {:induction false} TurnRests(at: Attributes, s: seq<Item>, i: nat, j: nat)
    requires Passing(at, s, i, j) && j < |s| && AtMost(at, s[j], s[i])
    ensures Passing(at, s, i, j + 1)
  {
    hide AtMost;
    if i > 0 && j == i - 1 {
      forall k | 0 <= k < |s| ensures AtMost(at, s[k], s[i]) { Transitive(at, s[k], s[j], s[i]); }
    }
  }

  /** A swap in the first pass: place 0 now holds the greater value. */
  lemma {:induction false} TurnLifts(at: Attributes, s: seq<Item>, j: nat)
    requires Passing(at, s, 0, j) && 0 < j < |s| && AtMost(at, s[0], s[j])
    ensures Passing(at, s[0 := s[j]][j := s[0]], 0, j + 1)
  {
    hide AtMost;
    var t := s[0 := s[j]][j := s[0]];
    forall k | 0 <= k < j + 1 ensures AtMost(at, t[k], t[0]) {
      Total(at, s[j], s[j]);
      if 0 < k < j { Transitive(at, s[k], s[0], s[j]); }
    }
  }

  /** A swap before place `i`: the carried value goes in, the value there is carried on. */
  lemma {:induction false} TurnInserts(at: Attributes, s: seq<Item>, i: nat, j: nat)
    requires Passing(at, s, i, j) && j < i && AtMost(at, s[i], s[j])
    ensures Passing(at, s[i := s[j]][j := s[i]], i, j + 1)
  {
    hide AtMost;
    var t := s[i := s[j]][j := s[i]];
    forall k, l | 0 <= k < l < i ensures AtMost(at, t[k], t[l]) {
      if k == j { Transitive(at, s[i], s[j], s[l]); }
    }
  }

  lemma {:induction false} TurnPasses(at: Attributes, s: seq<Item>, i: nat, j: nat)
    requires Passing(at, s, i, j) && j < |s| && NoneEmpty(s)
    ensures Passing(at, Turn(at, s, i, j), i, j + 1) && NoneEmpty(Turn(at, s, i, j))
  {
    hide AtMost, FindMax, Turn;
    TurnIs(at, s, i, j);
    Total(at, s[i], s[j]);
    if AtMost(at, s[j], s[i]) {
      TurnRests(at, s, i, j);
    } else if i == 0 {
      TurnLifts(at, s, j);
    } else {
      TurnInserts(at, s, i, j);
    }
  }

  // ----- lists in memory -----

  /** A list of lists is sorted together with the lists in it. A list must not contain itself,
      however deep: `level` witnesses that. */
  class Lists {
    const at: Attributes
    var values: map<nat, seq<Item>>
    ghost var level: map<nat, nat>

    /** Counts are right, no value is empty, and lists lie strictly inside one another. */
    ghost predicate Valid()
      reads this
    {
      && level.Keys == values.Keys
      && forall r :: r in values ==> Proper(values, level, at, r)
    }

    constructor (at: Attributes)
      ensures Valid() && values == map[] && this.at == at
    {
      this.at := at;
      values, level := map[], map[];
    }

    /** Sorting a list permutes it into order, and with it every list inside it at any depth:
        `sorted` holds them all. Nothing is added to or removed from any list. */
    method Sort(r: nat) returns (ghost sorted: set<nat>)
      requires Valid() && r in values
      modifies `values
      ensures Valid() && values.Keys == old(values).Keys
      ensures forall q :: q in values ==> multiset(values[q]) == multiset(old(values)[q])
      ensures r in sorted && sorted <= values.Keys
      ensures forall q :: q in sorted ==> InOrder(at, values, sorted, q)
      ensures forall q, k, l :: q in sorted && 0 <= k < l < |values[q]| ==> InPlainOrder(at, values[q][k], values[q][l])
      ensures forall q, k, l :: q in sorted && 0 <= k < l < |values[q]| && IsList(values[q][k]) && IsList(values[q][l]) ==>
                var x, y := values[q][k].id, values[q][l].id; x in values && y in values && |values[x]| <= |values[y]|
    {
      sorted := SortValues(r, {}, {});
      PlainlySorted(values, level, at, sorted);
    }

    /** Sorts list `r` and, as they are swapped, the lists in it. `busy` are the lists being
        sorted around it, `done` those sorted before. */
    method SortValues(r: nat, ghost busy: set<nat>, ghost done: set<nat>) returns (ghost done': set<nat>)
      requires Valid() && r in values && Settled(at, values, busy, done)
      requires busy <= values.Keys && forall q :: q in busy ==> level[r] < level[q]
      modifies `values
      ensures Valid() && values.Keys == old(values).Keys
      ensures Settled(at, values, busy, done') && done + {r} <= done'
      ensures forall q :: q in values ==> multiset(values[q]) == multiset(old(values)[q])
      ensures forall q :: q in values && level[q] >= level[r] && q != r ==> values[q] == old(values)[q]
      decreases level[r], 2
    {
      hide AtMost, FindMax, Passing, Turn, Sorted, IsList, Settled, Kept, Ready, Reached, Proper;
      done' := done + {r};
      KeptSelf(values, level, r);
      ghost var around := busy + {r};
      StartsSettled(at, values, busy, done, r);
      PassStarts(at, values[r], done');
      var count := |values[r]|;
      for i := 0 to count
        invariant Valid() && values.Keys == old(values).Keys && |values[r]| == count
        invariant Settled(at, values, around, done') && done + {r} <= done'
        invariant Kept(old(values), values, level, r)
        invariant Ready(at, values[r], i) && Reached(values[r], i, 0, done')
      {
        PassBegins(at, values[r], i);
        for j := 0 to count
          invariant Valid() && values.Keys == old(values).Keys && |values[r]| == count
          invariant Settled(at, values, around, done') && done + {r} <= done'
          invariant Kept(old(values), values, level, r)
          invariant Passing(at, values[r], i, j) && Reached(values[r], i, j, done')
        {
          ghost var before := values;
          done' := OneTurn(r, i, j, around, done');
          KeptTrans(old(values), before, values, level, r);
        }
        PassEnds(at, values[r], i, done');
      }
      AllInOrder(at, values, busy, done', r);
      KeptMeans(old(values), values, level, r);
    }

    /** One turn of the inner loop, with the lists it moves sorted. */
    method OneTurn(r: nat, i: nat, j: nat, ghost busy: set<nat>, ghost done: set<nat>) returns (ghost done': set<nat>)
      requires Valid() && busy <= values.Keys && r in busy && i < |values[r]| && j < |values[r]|
      requires Settled(at, values, busy, done) && forall q :: q in busy ==> level[r] <= level[q]
      requires Passing(at, values[r], i, j) && Reached(values[r], i, j, done)
      modifies `values
      ensures Valid() && values.Keys == old(values).Keys && Kept(old(values), values, level, r)
      ensures Settled(at, values, busy, done') && done <= done'
      ensures |values[r]| == |old(values)[r]| && Passing(at, values[r], i, j + 1) && Reached(values[r], i, j + 1, done')
      decreases level[r], 1
    {
      hide AtMost, FindMax, Passing, Turn, Sorted, IsList, Settled, Kept, Ready, Reached, Proper;
      var s := values[r];
      ghost var t := Turn(at, s, i, j);
      done' := done;
      assert Proper(values, level, at, r);
      NoEmptyValue(values, level, at, r);
      TurnPasses(at, s, i, j);
      TurnPermutes(at, s, i, j);
      TurnValid(values, level, at, busy, done, r, i, j);
      TurnReaches(at, s, i, j, done);
      if s[j] == FindMax(at, s[i], s[j]) {
        TurnSwaps(at, s, i, j);
        values := values[r := s[i := s[j]][j := s[i]]];
        ghost var swapped := values;
        done' := SortNested(r, i, busy, done');
        KeptTrans(old(values), swapped, values, level, r);
        ghost var one := values;
        done' := SortNested(r, j, busy, done');
        KeptTrans(old(values), one, values, level, r);
      } else {
        KeptSelf(values, level, r);
      }
    }

    /** Sorts the value at place `i` of list `r` if it is a list. */
    method SortNested(r: nat, i: nat, ghost busy: set<nat>, ghost done: set<nat>) returns (ghost done': set<nat>)
      requires Valid() && busy <= values.Keys && r in busy && i < |values[r]|
      requires Settled(at, values, busy, done) && forall q :: q in busy ==> level[r] <= level[q]
      modifies `values
      ensures Valid() && values.Keys == old(values).Keys && values[r] == old(values)[r] && Kept(old(values), values, level, r)
      ensures Settled(at, values, busy, done') && done <= done'
      ensures IsList(values[r][i]) ==> values[r][i].id in done'
      decreases level[r], 0
    {
      hide Settled;
      done' := done;
      assert Proper(values, level, at, r);
      if IsList(values[r][i]) {
        done' := SortValues(values[r][i].id, busy, done);
      }
    }
  }

  /** Nothing but the order inside lists has changed, and nothing at all in lists that `r`
      cannot contain. */
  ghost predicate Kept(before: map<nat, seq<Item>>, after: map<nat, seq<Item>>, level: map<nat, nat>, r: nat) {
    && after.Keys == before.Keys == level.Keys && r in level
    && (forall q :: q in after ==> multiset(after[q]) == multiset(before[q]))
    && (forall q :: q in after && level[q] >= level[r] && q != r ==> after[q] == before[q])
  }

  lemma {:induction false} KeptSelf(a: map<nat, seq<Item>>, level: map<nat, nat>, r: nat)
    requires a.Keys == level.Keys && r in level
    ensures Kept(a, a, level, r)
  {}

  lemma {:induction false} KeptTrans(a: map<nat, seq<Item>>, b: map<nat, seq<Item>>, c: map<nat, seq<Item>>, level: map<nat, nat>, r: nat)
    requires Kept(a, b, level, r) && Kept(b, c, level, r)
    ensures Kept(a, c, level, r)
  {}

  lemma {:induction false} KeptMeans(a: map<nat, seq<Item>>, b: map<nat, seq<Item>>, level: map<nat, nat>, r: nat)
    requires Kept(a, b, level, r)
    ensures a.Keys == b.Keys == level.Keys
    ensures forall q :: q in b ==> multiset(b[q]) == multiset(a[q])
    ensures forall q :: q in b && level[q] >= level[r] && q != r ==> b[q] == a[q]
  {}

  /** Before pass `i`. */
  ghost predicate Ready(at: Attributes, s: seq<Item>, i: nat) {
    i <= |s| && Sorted(at, s, i) && (i > 0 ==> Tops(at, s, i - 1, |s|))
  }

  /** The lists at the places that passes have been to are done. */
  ghost predicate Reached(s: seq<Item>, i: nat, j: nat, done: set<nat>) {
    forall k :: 0 <= k < |s| && (k < i || (k == i && j > i)) && IsList(s[k]) ==> s[k].id in done
  }

  lemma {:induction false} PassStarts(at: Attributes, s: seq<Item>, done: set<nat>)
    ensures Ready(at, s, 0) && Reached(s, 0, 0, done)
  {}

  lemma {:induction false} PassBegins(at: Attributes, s: seq<Item>, i: nat)
    requires Ready(at, s, i) && i < |s|
    ensures Passing(at, s, i, 0)
  {}

  lemma {:induction false} PassEnds(at: Attributes, s: seq<Item>, i: nat, done: set<nat>)
    requires Passing(at, s, i, |s|) && Reached(s, i, |s|, done)
    ensures Ready(at, s, i + 1) && Reached(s, i + 1, 0, done)
  {
    hide AtMost;
  }

  lemma {:induction false} StartsSettled(at: Attributes, values: map<nat, seq<Item>>, busy: set<nat>, done: set<nat>, r: nat)
    requires Settled(at, values, busy, done) && r in values
    ensures Settled(at, values, busy + {r}, done + {r})
  {
    forall q | q in done + {r} && q !in busy + {r} ensures InOrder(at, values, done + {r}, q) {
      assert InOrder(at, values, done, q);
    }
  }

  lemma {:induction false} AllInOrder(at: Attributes, values: map<nat, seq<Item>>, busy: set<nat>, done: set<nat>, r: nat)
    requires r in values && Settled(at, values, busy + {r}, done) && Ready(at, values[r], |values[r]|)
    requires Reached(values[r], |values[r]|, 0, done)
    ensures Settled(at, values, busy, done)
  {
    forall q | q in done && q !in busy ensures InOrder(at, values, done, q) {
      if q != r { assert q !in busy + {r}; }
    }
  }

  lemma {:induction false} TurnSwaps(at: Attributes, s: seq<Item>, i: nat, j: nat)
    requires i < |s| && j < |s| && s[j] == FindMax(at, s[i], s[j])
    ensures Turn(at, s, i, j) == s[i := s[j]][j := s[i]]
  {}

  lemma {:induction false} TurnReaches(at: Attributes, s: seq<Item>, i: nat, j: nat, done: set<nat>)
    requires i < |s| && j < |s| && Reached(s, i, j, done)
    ensures s[j] != FindMax(at, s[i], s[j]) ==> Turn(at, s, i, j) == s && Reached(s, i, j + 1, done)
    ensures var t := Turn(at, s, i, j);
            forall more :: done <= more && (IsList(t[i]) ==> t[i].id in more) && (IsList(t[j]) ==> t[j].id in more) ==>
              Reached(t, i, j + 1, more)
  {
    var t := Turn(at, s, i, j);
    forall more | done <= more && (IsList(t[i]) ==> t[i].id in more) && (IsList(t[j]) ==> t[j].id in more)
      ensures Reached(t, i, j + 1, more) {}
  }

  lemma {:induction false} TurnValid(values: map<nat, seq<Item>>, level: map<nat, nat>, at: Attributes,
                                     busy: set<nat>, done: set<nat>, r: nat, i: nat, j: nat)
    requires level.Keys == values.Keys && (forall q :: q in values ==> Proper(values, level, at, q))
    requires r in values && r in busy && i < |values[r]| && j < |values[r]| && Settled(at, values, busy, done)
    ensures var values' := values[r := Turn(at, values[r], i, j)];
            && (forall q :: q in values' ==> Proper(values', level, at, q))
            && Settled(at, values', busy, done) && Kept(values, values', level, r)
  {
    hide FindMax, AtMost, Sorted;
    var t := Turn(at, values[r], i, j);
    var values' := values[r := t];
    TurnPermutes(at, values[r], i, j);
    forall q | q in values' ensures Proper(values', level, at, q) { assert Proper(values, level, at, q) && Proper(values, level, at, r); }
    forall q | q in done && q !in busy ensures InOrder(at, values', done, q) { assert InOrder(at, values, done, q); }
  }

  predicate IsList(v: Item) { v.Object? && v.kind == OList }

  ghost predicate Proper(values: map<nat, seq<Item>>, level: map<nat, nat>, at: Attributes, r: nat)
    requires r in values && level.Keys == values.Keys
  {
    && |values[r]| == at.size(r) && NoneEmpty(values[r])
    && forall k :: 0 <= k < |values[r]| && IsList(values[r][k]) ==>
         values[r][k].id in values && level[values[r][k].id] < level[r]
  }

  lemma {:induction false} NoEmptyValue(values: map<nat, seq<Item>>, level: map<nat, nat>, at: Attributes, r: nat)
    requires r in values && level.Keys == values.Keys && Proper(values, level, at, r)
    ensures NoneEmpty(values[r])
  {}

  lemma {:induction false} PlainlySorted(values: map<nat, seq<Item>>, level: map<nat, nat>, at: Attributes, sorted: set<nat>)
    requires level.Keys == values.Keys && (forall r :: r in values ==> Proper(values, level, at, r))
    requires sorted <= values.Keys && forall q :: q in sorted ==> InOrder(at, values, sorted, q)
    ensures forall q, k, l :: q in sorted && 0 <= k < l < |values[q]| ==> InPlainOrder(at, values[q][k], values[q][l])
    ensures forall q, k, l :: q in sorted && 0 <= k < l < |values[q]| && IsList(values[q][k]) && IsList(values[q][l]) ==>
              var x, y := values[q][k].id, values[q][l].id; x in values && y in values && |values[x]| <= |values[y]|
  {
    hide AtMost, InPlainOrder;
    forall q, k, l | q in sorted && 0 <= k < l < |values[q]| ensures InPlainOrder(at, values[q][k], values[q][l]) {
      assert InOrder(at, values, sorted, q) && Proper(values, level, at, q);
      OrderIsPlain(at, values[q][k], values[q][l]);
    }
    forall q, k, l | q in sorted && 0 <= k < l < |values[q]| && IsList(values[q][k]) && IsList(values[q][l])
      ensures var x, y := values[q][k].id, values[q][l].id; x in values && y in values && |values[x]| <= |values[y]| {
      assert Proper(values, level, at, q);
      assert Proper(values, level, at, values[q][k].id) && Proper(values, level, at, values[q][l].id);
      ListsInOrder(at, values[q][k], values[q][l]);
    }
  }

  lemma {:induction false} ListsInOrder(at: Attributes, a: Item, b: Item)
    requires IsList(a) && IsList(b) && InPlainOrder(at, a, b)
    ensures at.size(a.id) <= at.size(b.id)
  {}

  /** Every list in `done`, other than those still being sorted, is in order and so are the
      lists in it. */
  ghost predicate Settled(at: Attributes, values: map<nat, seq<Item>>, busy: set<nat>, done: set<nat>) {
    && done <= values.Keys
    && forall q :: q in done && q !in busy ==> InOrder(at, values, done, q)
  }

  ghost predicate InOrder(at: Attributes, values: map<nat, seq<Item>>, done: set<nat>, q: nat)
    requires q in values
  {
    && Sorted(at, values[q], |values[q]|)
    && forall k :: 0 <= k < |values[q]| && IsList(values[q][k]) ==> values[q][k].id in done
  }
}
