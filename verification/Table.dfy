/** The hash table: open addressing with linear probing, tombstones that still count, and
    doubling growth. Behind it is a finite map. */
module Table {
  import opened Basics
  import opened Values

  const TABLE_MAX_LOAD: real := 0.85714286

  /** A slot is vacant when key and value were never set; a deleted entry leaves a tombstone,
      an empty key with a value. */
  datatype Entry = Entry(key: Value, value: Value) {
    predicate Live() { key != Empty }
    predicate Vacant() { key == Empty && value == Nil }
  }

  const VACANT := Entry(Empty, Nil)
  const TOMBSTONE := Entry(Empty, Bool(true))

  // ----- counting -----

  /** Live entries and tombstones. */
  function Used(es: seq<Entry>): (n: nat)
    ensures n <= |es|
  {
    if es == [] then 0 else Used(es[..|es| - 1]) + if es[|es| - 1].Vacant() then 0 else 1
  }

  lemma {:induction false} UsedUpdate(es: seq<Entry>, i: nat, e: Entry)
    requires i < |es|
    ensures Used(es[i := e]) == Used(es) - (if es[i].Vacant() then 0 else 1) + if e.Vacant() then 0 else 1
  {
    var n := |es| - 1;
    if i < n {
      assert es[i := e][..n] == es[..n][i := e];
      UsedUpdate(es[..n], i, e);
    } else {
      assert es[i := e][..n] == es[..n];
    }
  }

  lemma {:induction false} SomeVacant(es: seq<Entry>) returns (i: nat)
    requires Used(es) < |es|
    ensures i < |es| && es[i].Vacant()
  {
    i := |es| - 1;
    if !es[i].Vacant() { i := SomeVacant(es[..|es| - 1]); }
  }

  lemma {:induction false} AllVacant(n: nat)
    ensures Used(seq(n, _ => VACANT)) == 0
  {
    if n > 0 {
      AllVacant(n - 1);
      assert seq(n, _ => VACANT)[..n - 1] == seq(n - 1, _ => VACANT);
    }
  }

  // ----- masks -----

  /** Bitwise `and`. */
  function And(a: nat, b: nat): nat {
    if a == 0 || b == 0 then 0 else 2 * And(a / 2, b / 2) + (a % 2) * (b % 2)
  }

  predicate PowerOfTwo(c: nat) {
    c == 1 || (c > 1 && c % 2 == 0 && PowerOfTwo(c / 2))
  }

  lemma DoubleMod(h: nat, d: nat)
    requires d > 0
    ensures h % (2 * d) == 2 * (h / 2 % d) + h % 2
  {
    var half := h / 2;
    var q, r := half / d, half % d;
    assert half == q * d + r;
    assert h == q * (2 * d) + (2 * r + h % 2) by { assert q * (2 * d) == 2 * (q * d); }
    Divided(h, 2 * d, q, 2 * r + h % 2);
  }

  lemma {:induction false} AndStep(a: nat, b: nat)
    ensures a == 0 || b == 0 ==> And(a, b) == 0
    ensures a > 0 && b % 2 == 1 ==> And(a, b) == 2 * And(a / 2, b / 2) + a % 2
  {}

  lemma {:induction false} HalfOfPower(c: nat)
    requires PowerOfTwo(c) && c > 1
    ensures c == 2 * (c / 2) && c / 2 > 0 && PowerOfTwo(c / 2)
  {}

  /** Masking with a capacity less one is reducing modulo the capacity. */
  lemma {:induction false} MaskIsMod(h: nat, c: nat)
    requires PowerOfTwo(c)
    ensures c > 0 && And(h, c - 1) == h % c
  {
    hide And;
    assert c > 0;
    if c > 1 && h > 0 { MaskStep(h, c); } else { MaskNothing(h, c); }
  }

  lemma {:induction false} MaskNothing(h: nat, c: nat)
    requires c == 1 || (c > 0 && h == 0)
    ensures And(h, c - 1) == h % c
  {
    hide And;
    AndStep(h, c - 1);
    if c == 1 { Divided(h, 1, h, 0); } else { Divided(0, c, 0, 0); }
  }

  lemma {:induction false} MaskStep(h: nat, c: nat)
    requires PowerOfTwo(c) && c > 1 && h > 0
    ensures And(h, c - 1) == h % c
    decreases h, c, 0
  {
    hide And, PowerOfTwo;
    HalfOfPower(c);
    var d := c / 2;
    AndStep(h, c - 1);
    if d > 1 && h / 2 > 0 { MaskStep(h / 2, d); } else { MaskNothing(h / 2, d); }
    assert And(h / 2, d - 1) == h / 2 % d;
    assert (c - 1) / 2 == d - 1 && (c - 1) % 2 == 1;
    assert And(h, c - 1) == 2 * And(h / 2, d - 1) + h % 2;
    DoubleMod(h, d);
  }

  // ----- probing -----

  /** The slot at distance `d` from `home`, wrapping around. */
  function Slot(home: nat, d: nat, capacity: nat): (i: nat)
    requires home < capacity && d < capacity
    ensures i < capacity
  {
    if home + d < capacity then home + d else home + d - capacity
  }

  function Distance(home: nat, i: nat, capacity: nat): (d: nat)
    requires home < capacity && i < capacity
    ensures d < capacity && Slot(home, d, capacity) == i
  {
    if i >= home then i - home else i + capacity - home
  }

  lemma NextSlot(home: nat, d: nat, capacity: nat)
    requires home < capacity && d + 1 < capacity
    ensures Slot(home, d + 1, capacity) == (Slot(home, d, capacity) + 1) % capacity
  {}

  /** No vacant slot lies between `home` and distance `d`. */
  ghost predicate Reaches(es: seq<Entry>, home: nat, d: nat)
    requires home < |es| && d < |es|
  {
    forall e :: 0 <= e < d ==> !es[Slot(home, e, |es|)].Vacant()
  }

  /** Entry `i` is found by probing for its key. */
  ghost predicate Reachable(hash: Value -> nat, es: seq<Entry>, i: nat)
    requires i < |es|
  {
    var home := hash(es[i].key) % |es|;
    Reaches(es, home, Distance(home, i, |es|))
  }

  ghost predicate Probed(hash: Value -> nat, es: seq<Entry>) {
    forall i :: 0 <= i < |es| && es[i].Live() ==> Reachable(hash, es, i)
  }

  // ----- contents -----

  ghost predicate Distinct(es: seq<Entry>) {
    forall i, j :: 0 <= i < |es| && 0 <= j < |es| && es[i].Live() && es[j].Live() && es[i].key == es[j].key ==> i == j
  }

  /** `m` is what the live entries among `es` say. */
  ghost predicate Holds(es: seq<Entry>, m: map<Value, Value>) {
    && (forall i :: 0 <= i < |es| && es[i].Live() ==> es[i].key in m && m[es[i].key] == es[i].value)
    && (forall k :: k in m ==> exists i :: 0 <= i < |es| && es[i].Live() && es[i].key == k)
  }

  /** A table that probing can trust. */
  ghost predicate Sound(hash: Value -> nat, es: seq<Entry>, m: map<Value, Value>) {
    Probed(hash, es) && Distinct(es) && Holds(es, m)
  }

  lemma {:induction false} HoldsStored(es: seq<Entry>, m: map<Value, Value>, i: nat, k: Value, v: Value)
    requires Holds(es, m) && Distinct(es) && i < |es| && k != Empty
    requires if es[i].Live() then es[i].key == k else k !in m
    ensures Holds(es[i := Entry(k, v)], m[k := v]) && Distinct(es[i := Entry(k, v)])
  {
    var es', m' := es[i := Entry(k, v)], m[k := v];
    forall x | x in m' ensures exists j :: 0 <= j < |es'| && es'[j].Live() && es'[j].key == x {
      if x == k { assert es'[i].key == x; }
      else { var j :| 0 <= j < |es| && es[j].Live() && es[j].key == x; assert es'[j] == es[j]; }
    }
  }

  /** Writing to a slot leaves every probe path as free of vacant slots as it was. */
  lemma {:induction false} ProbedStored(hash: Value -> nat, es: seq<Entry>, i: nat, e: Entry)
    requires Probed(hash, es) && i < |es| && !e.Vacant()
    requires e.Live() ==> Reaches(es, hash(e.key) % |es|, Distance(hash(e.key) % |es|, i, |es|))
    ensures Probed(hash, es[i := e])
  {
    var es' := es[i := e];
    forall j | 0 <= j < |es'| && es'[j].Live() ensures Reachable(hash, es', j) {
      assert j != i ==> Reachable(hash, es, j);
    }
  }

  lemma {:induction false} Stored(hash: Value -> nat, es: seq<Entry>, m: map<Value, Value>, i: nat, k: Value, v: Value)
    requires Sound(hash, es, m) && Home(hash, es, m, k, i) && k != Empty
    ensures Sound(hash, es[i := Entry(k, v)], m[k := v])
    ensures Used(es[i := Entry(k, v)]) == Used(es) + if es[i].Vacant() then 1 else 0
  {
    hide Probed, Reaches;
    HoldsStored(es, m, i, k, v);
    ProbedStored(hash, es, i, Entry(k, v));
    UsedUpdate(es, i, Entry(k, v));
  }

  lemma {:induction false} Buried(hash: Value -> nat, es: seq<Entry>, m: map<Value, Value>, i: nat)
    requires Sound(hash, es, m) && i < |es| && es[i].Live()
    ensures Sound(hash, es[i := TOMBSTONE], m - {es[i].key}) && Used(es[i := TOMBSTONE]) == Used(es)
  {
    hide Probed, Used, Reaches;
    ProbedStored(hash, es, i, TOMBSTONE);
    UsedUpdate(es, i, TOMBSTONE);
    HoldsBuried(es, m, i);
  }

  lemma {:induction false} HoldsBuried(es: seq<Entry>, m: map<Value, Value>, i: nat)
    requires Distinct(es) && Holds(es, m) && i < |es| && es[i].Live()
    ensures Distinct(es[i := TOMBSTONE]) && Holds(es[i := TOMBSTONE], m - {es[i].key})
  {
    var es', m' := es[i := TOMBSTONE], m - {es[i].key};
    forall x | x in m' ensures exists j :: 0 <= j < |es'| && es'[j].Live() && es'[j].key == x {
      var j :| 0 <= j < |es| && es[j].Live() && es[j].key == x;
      assert es'[j] == es[j];
    }
  }

  /** `i` is the slot for key `k`: the entry that has it, or else a free slot that probing for
      `k` gets to without passing a vacant one. */
  ghost predicate Home(hash: Value -> nat, es: seq<Entry>, m: map<Value, Value>, k: Value, i: nat) {
    && i < |es|
    && (if k in m then es[i].Live() && es[i].key == k else !es[i].Live())
    && var home := hash(k) % |es|; Reaches(es, home, Distance(home, i, |es|))
  }

  /** The probe loop. It ends because a vacant slot remains. */
  method FindEntry(hash: Value -> nat, es: seq<Entry>, key: Value, ghost m: map<Value, Value>) returns (index: nat)
    requires Sound(hash, es, m) && Used(es) < |es| && PowerOfTwo(|es|)
    ensures Home(hash, es, m, key, index)
  {
    hide Probed, Distinct, Used, And, PowerOfTwo;
    MaskIsMod(hash(key), |es|);
    var home := And(hash(key), |es| - 1);
    index := home;
    var tombstone: Option<nat> := None;
    ghost var stop := SomeVacant(es);
    ghost var d := 0;
    while true
      invariant d <= Distance(home, stop, |es|) && index == Slot(home, d, |es|)
      invariant Reaches(es, home, d)
      invariant forall e :: 0 <= e < d ==> es[Slot(home, e, |es|)].key != key || key == Empty
      invariant tombstone.Some? ==> tombstone.value < |es| && !es[tombstone.value].Live()
                                    && Distance(home, tombstone.value, |es|) < d
      decreases |es| - d
    {
      var entry := es[index];
      if entry.key == Empty {
        if entry.value == Nil {
          NotBeyond(hash, es, m, key, d);
          return if tombstone.Some? then tombstone.value else index;
        } else if tombstone.None? {
          tombstone := Some(index);
        }
      } else if entry.key == key {
        return;
      }
      NextSlot(home, d, |es|);
      MaskIsMod(index + 1, |es|);
      index := And(index + 1, |es| - 1);
      d := d + 1;
    }
  }

  /** A key that has not turned up before the first vacant slot is not in the table. */
  lemma {:induction false} NotBeyond(hash: Value -> nat, es: seq<Entry>, m: map<Value, Value>, key: Value, d: nat)
    requires Sound(hash, es, m) && d < |es| && es[Slot(hash(key) % |es|, d, |es|)].Vacant()
    requires forall e :: 0 <= e < d ==> es[Slot(hash(key) % |es|, e, |es|)].key != key || key == Empty
    ensures key !in m
  {
    var home := hash(key) % |es|;
    forall i | 0 <= i < |es| && es[i].Live() ensures es[i].key != key {
      assert Reachable(hash, es, i);
      assert es[Slot(home, Distance(home, i, |es|), |es|)] == es[i];
    }
  }

  lemma {:induction false} HomeMeans(hash: Value -> nat, es: seq<Entry>, m: map<Value, Value>, k: Value, i: nat)
    requires Home(hash, es, m, k, i)
    ensures i < |es| && (es[i].key != Empty <==> k in m) && (k in m ==> es[i].key == k)
  {}

  lemma {:induction false} UsedNone(es: seq<Entry>, i: nat)
    requires Used(es) == 0 && i < |es|
    ensures es[i].Vacant()
  {
    if i < |es| - 1 { UsedNone(es[..|es| - 1], i); }
  }

  lemma {:induction false} NothingStored(hash: Value -> nat, es: seq<Entry>, m: map<Value, Value>)
    requires Sound(hash, es, m) && Used(es) == 0
    ensures m == map[]
  {
    forall i | 0 <= i < |es| ensures !es[i].Live() { UsedNone(es, i); }
  }

  // ----- moving to a larger table -----

  /** No tombstones. */
  ghost predicate Clean(es: seq<Entry>) {
    forall i :: 0 <= i < |es| ==> es[i].Live() || es[i].Vacant()
  }

  lemma {:induction false} StartsEmpty(hash: Value -> nat, es: seq<Entry>, table: seq<Entry>)
    requires forall i :: 0 <= i < |table| ==> table[i] == VACANT
    ensures Sound(hash, table, map[]) && Clean(table) && Holds(es[..0], map[]) && Used(es[..0]) == 0
  {}

  lemma {:induction false} OneLonger(hash: Value -> nat, es: seq<Entry>, m: map<Value, Value>, i: nat, moved: map<Value, Value>)
    requires Sound(hash, es, m) && i < |es| && Holds(es[..i], moved)
    ensures Used(es[..i]) <= Used(es[..i + 1]) && (es[i].Live() ==> Used(es[..i]) < Used(es[..i + 1]))
    ensures if es[i].Live() then es[i].key !in moved && Holds(es[..i + 1], moved[es[i].key := es[i].value])
            else Holds(es[..i + 1], moved)
  {
    hide Probed, Used, Holds;
    UsedPrefix(es, i);
    var here, next := es[..i], es[..i + 1];
    assert next == here + [es[i]];
    HoldsLonger(here, es[i], moved);
    if es[i].Live() { NotYet(es, i, moved); }
  }

  lemma {:induction false} UsedPrefix(es: seq<Entry>, i: nat)
    requires i < |es|
    ensures Used(es[..i + 1]) == Used(es[..i]) + if es[i].Vacant() then 0 else 1
  {
    assert es[..i + 1][..i] == es[..i];
  }

  lemma {:induction false} NotYet(es: seq<Entry>, i: nat, moved: map<Value, Value>)
    requires Distinct(es) && i < |es| && es[i].Live() && Holds(es[..i], moved)
    ensures es[i].key !in moved
  {
    forall j | 0 <= j < i ensures !(es[..i][j].Live() && es[..i][j].key == es[i].key) {
      assert es[..i][j] == es[j];
    }
  }

  lemma {:induction false} HoldsLonger(here: seq<Entry>, e: Entry, moved: map<Value, Value>)
    requires Holds(here, moved)
    ensures !e.Live() ==> Holds(here + [e], moved)
    ensures e.Live() && e.key !in moved ==> Holds(here + [e], moved[e.key := e.value])
  {
    var next := here + [e];
    assert next[|here|] == e;
    forall k | k in moved ensures exists j :: 0 <= j < |next| && next[j].Live() && next[j].key == k {
      var j :| 0 <= j < |here| && here[j].Live() && here[j].key == k;
      assert next[j] == here[j];
    }
  }

  lemma {:induction false} CleanStored(hash: Value -> nat, es: seq<Entry>, m: map<Value, Value>, i: nat, k: Value, v: Value)
    requires Home(hash, es, m, k, i) && Clean(es) && k !in m && k != Empty
    ensures i < |es| && es[i].Vacant() && Clean(es[i := Entry(k, v)])
  {}

  lemma {:induction false} SameContents(hash: Value -> nat, es: seq<Entry>, m: map<Value, Value>, moved: map<Value, Value>)
    requires Sound(hash, es, m) && Holds(es, moved)
    ensures moved == m
  {
    hide Probed;
    forall k | k in m ensures k in moved && moved[k] == m[k] {
      var i :| 0 <= i < |es| && es[i].Live() && es[i].key == k;
    }
    forall k | k in moved ensures k in m {
      var i :| 0 <= i < |es| && es[i].Live() && es[i].key == k;
    }
  }

  lemma {:induction false} NotLive(hash: Value -> nat, es: seq<Entry>, m: map<Value, Value>, i: nat, k: Value)
    requires Sound(hash, es, m) && i < |es| && k !in m
    ensures !(es[i].Live() && es[i].key == k)
  {}

  lemma {:induction false} NoWhites(hash: Value -> nat, es: seq<Entry>, m: map<Value, Value>, white: Value -> bool)
    requires Sound(hash, es, m) && forall j :: 0 <= j < |es| ==> !(es[j].Live() && white(es[j].key))
    ensures forall k :: k in m ==> !white(k)
  {
    forall k | k in m ensures !white(k) {
      var i :| 0 <= i < |es| && es[i].Live() && es[i].key == k;
    }
  }

  lemma {:induction false} Doubled(c: nat)
    ensures PowerOfTwo(4) && (c >= 4 && PowerOfTwo(c) ==> PowerOfTwo(c * 2))
  {
    assert PowerOfTwo(2);
    assert c * 2 / 2 == c;
  }

  // ----- the map behind the table -----

  type Contents = map<Value, Value>

  /** A request to table number `at`. */
  datatype Request =
    | Put(at: nat, k: Value, v: Value)
    | Remove(at: nat, k: Value)
    | Lookup(at: nat, k: Value)
    | AddAll(at: nat, from: nat)

  /** It is to one of `n` tables; no key is empty, and no table is added to itself. */
  predicate Fair(r: Request, n: nat) {
    r.at < n && (r.Put? ==> r.k != Empty) && (r.AddAll? ==> r.from < n && r.from != r.at)
  }

  /** What finite maps answer, and what becomes of them. Nothing is ever found under nil. */
  function Reply(ms: seq<Contents>, r: Request): (a: (Option<Value>, seq<Contents>))
    requires Fair(r, |ms|)
    ensures |a.1| == |ms|
  {
    var m := ms[r.at];
    match r
    case Put(at, k, v) => (if k in m then None else Some(Bool(true)), ms[at := m[k := v]])
    case Remove(at, k) => (if k in m then Some(Bool(true)) else None, ms[at := m - {k}])
    case Lookup(at, k) => (if k in m && k != Nil then Some(m[k]) else None, ms)
    case AddAll(at, from) => (None, ms[at := m + ms[from]])
  }

  function Replies(ms: seq<Contents>, rs: seq<Request>): (r: (seq<Option<Value>>, seq<Contents>))
    requires forall i :: 0 <= i < |rs| ==> Fair(rs[i], |ms|)
    decreases |rs|
  {
    if rs == [] then ([], ms) else
      var first := Reply(ms, rs[0]);
      var rest := Replies(first.1, rs[1..]);
      ([first.0] + rest.0, rest.1)
  }

  class HashTable {
    const hash: Value -> nat
    var count: nat
    var capacity: nat
    var entries: seq<Entry>
    ghost var contents: map<Value, Value>

    /** `count` is live entries plus tombstones, and the load stays below the limit, so that
        some slot is always vacant. */
    ghost predicate Valid()
      reads this
    {
      && capacity == |entries| && count == Used(entries) && Sound(hash, entries, contents)
      && count as real <= capacity as real * TABLE_MAX_LOAD
      && (capacity == 0 || (capacity >= 4 && PowerOfTwo(capacity)))
    }

    constructor (hash: Value -> nat)
      ensures Valid() && contents == map[] && this.hash == hash
    {
      this.hash := hash;
      count, capacity, entries, contents := 0, 0, [], map[];
    }

    method Get(key: Value) returns (found: Option<Value>)
      requires Valid()
      ensures found == if key in contents && key != Nil then Some(contents[key]) else None
    {
      hide Used, Probed;
      if count == 0 || entries == [] {
        NothingStored(hash, entries, contents);
        return None;
      }
      var i := FindEntry(hash, entries, key, contents);
      if entries[i].key == Empty || entries[i].key == Nil {
        return None;
      }
      found := Some(entries[i].value);
    }

    method AdjustCapacity(newCapacity: nat)
      requires Valid() && newCapacity > |entries| && PowerOfTwo(newCapacity)
      modifies `count, `capacity, `entries
      ensures capacity == |entries| == newCapacity && count == Used(entries) <= Used(old(entries))
      ensures Sound(hash, entries, contents)
    {
      hide Probed, Holds, Distinct, Used, Sound, Home, Clean, PowerOfTwo;
      var table: seq<Entry> := seq(newCapacity, _ => VACANT);
      AllVacant(newCapacity);
      ghost var moved: map<Value, Value> := map[];
      StartsEmpty(hash, entries, table);
      count := 0;
      for i := 0 to capacity
        invariant capacity == |entries| && entries == old(entries) && |table| == newCapacity
        invariant Sound(hash, table, moved) && Clean(table) && Holds(entries[..i], moved)
        invariant count == Used(table) <= Used(entries[..i])
      {
        var entry := entries[i];
        OneLonger(hash, entries, contents, i, moved);
        if entry.key == Empty { continue; }
        var dest := FindEntry(hash, table, entry.key, moved);
        CleanStored(hash, table, moved, dest, entry.key, entry.value);
        Stored(hash, table, moved, dest, entry.key, entry.value);
        table := table[dest := Entry(entry.key, entry.value)];
        count := count + 1;
        moved := moved[entry.key := entry.value];
      }
      assert entries[..capacity] == entries;
      SameContents(hash, entries, contents, moved);
      entries := table;
      capacity := newCapacity;
    }

    /** Stores a value, first making room if the load would pass the limit. */
    method Set(key: Value, value: Value) returns (isNew: bool)
      requires Valid() && key != Empty
      modifies `count, `capacity, `entries, `contents
      ensures Valid() && contents == old(contents)[key := value] && isNew == (key !in old(contents))
    {
      hide Probed, Holds, Distinct, Used, Sound, Home;
      if (count + 1) as real > capacity as real * TABLE_MAX_LOAD {
        var newCapacity := if capacity < 4 then 4 else capacity * 2;
        Doubled(capacity);
        AdjustCapacity(newCapacity);
      }
      var i := FindEntry(hash, entries, key, contents);
      Stored(hash, entries, contents, i, key, value);
      HomeMeans(hash, entries, contents, key, i);
      isNew := entries[i].key == Empty;
      if isNew && entries[i].value == Nil {
        count := count + 1;
      }
      entries := entries[i := Entry(key, value)];
      contents := contents[key := value];
    }

    method Delete(key: Value) returns (gone: bool)
      requires Valid()
      modifies `entries, `contents
      ensures Valid() && contents == old(contents) - {key} && gone == (key in old(contents))
      ensures |entries| == |old(entries)|
      ensures forall j :: 0 <= j < |entries| ==> entries[j] == old(entries)[j] || entries[j] == TOMBSTONE
    {
      hide Probed, Holds, Distinct, Used, Sound, Home;
      if count == 0 {
        NothingStored(hash, entries, contents);
        assert contents - {key} == contents;
        return false;
      }
      var i := FindEntry(hash, entries, key, contents);
      HomeMeans(hash, entries, contents, key, i);
      if entries[i].key == Empty {
        assert contents - {key} == contents;
        return false;
      }
      Buried(hash, entries, contents, i);
      entries := entries[i := TOMBSTONE];
      contents := contents - {key};
      return true;
    }

    /** Copies every entry of another table, whose values win. */
    method AddAll(from: HashTable)
      requires Valid() && from.Valid() && from != this
      modifies `count, `capacity, `entries, `contents
      ensures Valid() && contents == old(contents) + from.contents
    {
      hide Probed, Holds, Distinct, Used, Sound, Home;
      ghost var added: map<Value, Value> := map[];
      StartsEmpty(hash, from.entries, []);
      assert contents + added == contents;
      for i := 0 to from.capacity
        invariant Valid() && contents == old(contents) + added && Holds(from.entries[..i], added)
      {
        var entry := from.entries[i];
        OneLonger(from.hash, from.entries, from.contents, i, added);
        if entry.key != Empty {
          var _ := Set(entry.key, entry.value);
          added := added[entry.key := entry.value];
        }
      }
      assert from.entries[..from.capacity] == from.entries;
      SameContents(from.hash, from.entries, from.contents, added);
    }

    /** Deletes every key that `white` picks out. */
    method RemoveWhites(white: Value -> bool)
      requires Valid()
      modifies `entries, `contents
      ensures Valid() && contents == map k | k in old(contents) && !white(k) :: old(contents)[k]
    {
      hide Probed, Distinct, Used, Home, Holds, Sound;
      ghost var start := contents;
      for i := 0 to capacity
        invariant Valid()
        invariant contents.Keys <= start.Keys && forall k :: k in contents ==> contents[k] == start[k]
        invariant forall k :: k in start && k !in contents ==> white(k)
        invariant forall j :: 0 <= j < i ==> !(entries[j].Live() && white(entries[j].key))
      {
        var key := entries[i].key;
        if key != Empty && white(key) {
          var _ := Delete(key);
          NotLive(hash, entries, contents, i, key);
        }
      }
      NoWhites(hash, entries, contents, white);
    }
  }

  // ----- tables in use -----

  ghost predicate AllValid(tables: seq<HashTable>)
    reads tables
  {
    && (forall i :: 0 <= i < |tables| ==> tables[i].Valid())
    && forall i, j :: 0 <= i < j < |tables| ==> tables[i] != tables[j]
  }

  ghost function Held(tables: seq<HashTable>): (ms: seq<Contents>)
    reads tables
    ensures |ms| == |tables| && forall i :: 0 <= i < |ms| ==> ms[i] == tables[i].contents
  {
    seq(|tables|, i requires 0 <= i < |tables| reads tables => tables[i].contents)
  }

  /** One request. */
  method Answer(tables: seq<HashTable>, r: Request) returns (answer: Option<Value>)
    requires AllValid(tables) && Fair(r, |tables|)
    modifies tables
    ensures AllValid(tables) && (answer, Held(tables)) == Reply(old(Held(tables)), r)
  {
    hide HashTable.Valid;
    ghost var before := Held(tables);
    var t := tables[r.at];
    answer := None;
    match r {
      case Put(_, k, v) =>
        var isNew := t.Set(k, v);
        if isNew { answer := Some(Bool(true)); }
      case Remove(_, k) =>
        var gone := t.Delete(k);
        if gone { answer := Some(Bool(true)); }
      case Lookup(_, k) =>
        answer := t.Get(k);
      case AddAll(_, from) =>
        t.AddAll(tables[from]);
    }
    assert Held(tables) == before[r.at := t.contents];
    assert before[r.at := before[r.at]] == before;
  }

  /** Any sequence of requests to any number of tables is answered as finite maps would answer
      it. */
  method Serve(tables: seq<HashTable>, requests: seq<Request>) returns (answers: seq<Option<Value>>)
    requires AllValid(tables) && forall i :: 0 <= i < |requests| ==> Fair(requests[i], |tables|)
    modifies tables
    ensures AllValid(tables) && (answers, Held(tables)) == Replies(old(Held(tables)), requests)
  {
    hide AllValid, Reply;
    answers := [];
    ghost var start := Held(tables);
    ghost var rest := requests;
    assert [] + Replies(start, requests).0 == Replies(start, requests).0;
    for i := 0 to |requests|
      invariant AllValid(tables) && rest == requests[i..] && forall j :: 0 <= j < |rest| ==> Fair(rest[j], |tables|)
      invariant Replies(start, requests).0 == answers + Replies(Held(tables), rest).0
      invariant Replies(start, requests).1 == Replies(Held(tables), rest).1
    {
      assert rest[0] == requests[i] && rest[1..] == requests[i + 1..];
      var answer := Answer(tables, requests[i]);
      assert answers + ([answer] + Replies(Held(tables), rest[1..]).0) == answers + [answer] + Replies(Held(tables), rest[1..]).0;
      answers := answers + [answer];
      rest := rest[1..];
    }
    assert rest == [] && answers + [] == answers;
  }
}
