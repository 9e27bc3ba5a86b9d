/** The memory that reading a JSON document leaves behind is that document. */
module JsonBuilt {
  import opened Basics
  import opened Json
  import opened JsonTrace
  import opened JsonMembers
  import opened JsonMemory
  import opened JsonText
  import opened JsonDocuments

  // ----- the events of one value -----

  /** The events on value `id`. */
  function Only(t: seq<Event>, id: nat): (r: seq<Event>) {
    if t == [] then [] else
      var e := t[|t| - 1];
      if e.id == id then Only(t[..|t| - 1], id) + [e] else Only(t[..|t| - 1], id)
  }

  lemma {:induction false} OnlyAdds(t: seq<Event>, e: Event, id: nat)
    ensures Only(t + [e], id) == if e.id == id then Only(t, id) + [e] else Only(t, id)
  {
    assert (t + [e])[..|t|] == t;
  }

  lemma {:induction false} OnlyAppend(a: seq<Event>, b: seq<Event>, id: nat)
    ensures Only(a + b, id) == Only(a, id) + Only(b, id)
    decreases |b|
  {
    if b == [] {
      assert a + b == a;
    } else {
      var front, e := b[..|b| - 1], b[|b| - 1];
      OnlyAppend(a, front, id);
      OnlyAdds(a + front, e, id);
      assert a + b == (a + front) + [e];
    }
  }

  lemma {:induction false} OnlyNone(t: seq<Event>, id: nat)
    requires forall e :: e in t ==> e.id != id
    ensures Only(t, id) == []
  {
    if t != [] { OnlyNone(t[..|t| - 1], id); }
  }

  /** They decide what it holds. */
  lemma {:induction false} OnlyMatters(t: seq<Event>, id: nat)
    ensures Children(t, id) == Children(Only(t, id), id) && KeyBytes(t, id) == KeyBytes(Only(t, id), id)
    ensures TextOf(t, id) == TextOf(Only(t, id), id) && Labels(t, id) == Labels(Only(t, id), id)
    ensures forall k :: New(id, k) in t <==> New(id, k) in Only(t, id)
  {
    if t != [] {
      var front, e := t[..|t| - 1], t[|t| - 1];
      OnlyMatters(front, id);
      assert t == front + [e];
      if e.id == id {
        Adds(front, e, id);
        Adds(Only(front, id), e, id);
        LabelsAdds(front, e, id);
        LabelsAdds(Only(front, id), e, id);
      }
    }
  }

  /** Every event of a value is on it or on a value inside it. */
  lemma {:induction false} MadeWithin(d: Doc, k: nat)
    requires LegalDoc(d)
    ensures forall e :: e in Made(d, k) ==> k <= e.id < k + Values(d)
    decreases d
  {
    if d.Sequence? || d.Dictionary? { MadeItemsWithin(d.items, d.Dictionary?, k, k + 1); }
  }

  lemma {:induction false} MadeItemsWithin(items: Items, named: bool, parent: nat, k: nat)
    requires LegalItems(items)
    ensures forall e :: e in MadeItems(items, named, parent, k) ==> e.id == parent || k <= e.id < k + ItemValues(items)
    decreases items
  {
    if items.Item? {
      MadeWithin(items.value, k);
      MadeItemsWithin(items.rest, named, parent, k + Values(items.value));
    }
  }

  /** The events on a holder itself. */
  function OwnItems(items: Items, named: bool, parent: nat, k: nat): seq<Event>
    requires LegalItems(items)
  {
    if items.End? then []
    else (if named then [Key(parent, StringTaken(items.name))] else [])
         + ([Child(parent, k)] + OwnItems(items.rest, named, parent, k + Values(items.value)))
  }

  lemma {:induction false} OnlyOwn(items: Items, named: bool, parent: nat, k: nat)
    requires LegalItems(items) && parent < k
    ensures Only(MadeItems(items, named, parent, k), parent) == OwnItems(items, named, parent, k)
    decreases items
  {
    hide Made, Only, StringTaken;
    if items.Item? {
      var key := if named then [Key(parent, StringTaken(items.name))] else [];
      var value, child := Made(items.value, k), [Child(parent, k)];
      var rest := MadeItems(items.rest, named, parent, k + Values(items.value));
      OnlyOwn(items.rest, named, parent, k + Values(items.value));
      MadeWithin(items.value, k);
      OnlyNone(value, parent);
      OnlyAppend(key, value + (child + rest), parent);
      OnlyAppend(value, child + rest, parent);
      OnlyAppend(child, rest, parent);
      OnlySmall(parent, child[0]);
      if named { OnlySmall(parent, key[0]); } else { OnlyNone([], parent); }
    } else {
      OnlyNone([], parent);
    }
  }

  lemma {:induction false} OnlySmall(id: nat, e: Event)
    requires e.id == id
    ensures Only([e], id) == [e]
  {
    OnlyNone([], id);
    OnlyAdds([], e, id);
    assert [] + [e] == [e];
  }

  // ----- what memory holds -----

  /** Item `j` of the holder `b` is value `k`; in an object its entry leads to its name as well. */
  ghost predicate ItemAt(b: Block, name: seq<Piece>, named: bool, j: nat, k: nat)
    requires AllLegal(name)
  {
    if !named then j < |b.values| && b.values[j] == Some(k)
    else
      var w := StringTaken(name);
      && Holds(b.mem, EntryAt(j) + 16, Pointer(k))
      && exists at: nat :: Holds(b.mem, EntryAt(j), Head(at, |w|)) && Holds(b.mem, at, Chars(w + [0]))
  }

  /** Block `k` and those it leads to hold the document `d`. */
  ghost predicate Represents(blocks: seq<Block>, k: nat, d: Doc)
    requires LegalDoc(d)
    decreases d
  {
    k < |blocks|
    && var b := blocks[k];
       match d
       case Numeral(_) => b.kind.Number?
       case Quoted(ps) => var w := StringTaken(ps); b.kind == Str && |b.text| == |w| + 1 && Holds(b.text, 0, w + [0])
       case Sequence(items) => b.kind == Arr && b.filled == |b.values| == Size(items) && RepresentsItems(blocks, b, items, false, 0, k + 1)
       case Dictionary(items) => b.kind == Obj && b.filled == Size(items) && RepresentsItems(blocks, b, items, true, 0, k + 1)
       case _ => b.kind == Scalar
  }

  ghost predicate RepresentsItems(blocks: seq<Block>, b: Block, items: Items, named: bool, j: nat, k: nat)
    requires LegalItems(items)
    decreases items
  {
    items.End?
    || (ItemAt(b, items.name, named, j, k) && Represents(blocks, k, items.value)
        && RepresentsItems(blocks, b, items.rest, named, j + 1, k + Values(items.value)))
  }

  /** On the values from `k` on, `n` of them, `all` has the events that `t` has. */
  ghost predicate Local(all: seq<Event>, t: seq<Event>, k: nat, n: nat) {
    forall id :: k <= id < k + n ==> Only(all, id) == Only(t, id)
  }

  lemma {:induction false} LocalItem(all: seq<Event>, items: Items, named: bool, parent: nat, k: nat)
    requires items.Item? && LegalItems(items) && parent < k && Local(all, MadeItems(items, named, parent, k), k, ItemValues(items))
    ensures Local(all, Made(items.value, k), k, Values(items.value))
    ensures var next := k + Values(items.value); Local(all, MadeItems(items.rest, named, parent, next), next, ItemValues(items.rest))
  {
    hide Made, Only, StringTaken;
    var next := k + Values(items.value);
    forall id | k <= id < k + ItemValues(items)
      ensures Only(MadeItems(items, named, parent, k), id)
           == if id < next then Only(Made(items.value, k), id) else Only(MadeItems(items.rest, named, parent, next), id) {
      OnlyInItems(items, named, parent, k, id);
    }
  }

  lemma {:induction false} OnlyInItems(items: Items, named: bool, parent: nat, k: nat, id: nat)
    requires items.Item? && LegalItems(items) && parent < k <= id
    ensures Only(MadeItems(items, named, parent, k), id)
         == if id < k + Values(items.value) then Only(Made(items.value, k), id)
            else Only(MadeItems(items.rest, named, parent, k + Values(items.value)), id)
  {
    hide Made, Only, StringTaken;
    var next := k + Values(items.value);
    var key := if named then [Key(parent, StringTaken(items.name))] else [];
    var value, child, rest := Made(items.value, k), [Child(parent, k)], MadeItems(items.rest, named, parent, next);
    MadeWithin(items.value, k);
    MadeItemsWithin(items.rest, named, parent, next);
    OnlyAppend(key, value + (child + rest), id);
    OnlyAppend(value, child + rest, id);
    OnlyAppend(child, rest, id);
    OnlyNone(key, id);
    OnlyNone(child, id);
    if id < next { OnlyNone(rest, id); } else { OnlyNone(value, id); }
  }

  lemma {:induction false} LocalHolder(all: seq<Event>, items: Items, named: bool, k: nat)
    requires LegalItems(items)
    requires Local(all, [New(k, if named then Obj else Arr)] + MadeItems(items, named, k, k + 1), k, 1 + ItemValues(items))
    ensures Only(all, k) == [New(k, if named then Obj else Arr)] + OwnItems(items, named, k, k + 1)
    ensures Local(all, MadeItems(items, named, k, k + 1), k + 1, ItemValues(items))
  {
    hide Only, MadeItems, OwnItems;
    var first, rest := [New(k, if named then Obj else Arr)], MadeItems(items, named, k, k + 1);
    OnlyOwn(items, named, k, k + 1);
    OnlySmall(k, first[0]);
    OnlyAppend(first, rest, k);
    forall id | k + 1 <= id < k + 1 + ItemValues(items) ensures Only(all, id) == Only(rest, id) {
      OnlyAppend(first, rest, id);
      OnlyNone(first, id);
      assert [] + Only(rest, id) == Only(rest, id);
    }
  }

  lemma {:induction false} OwnHolds(items: Items, named: bool, parent: nat, k: nat)
    requires LegalItems(items)
    ensures var t := OwnItems(items, named, parent, k); |Children(t, parent)| == Size(items) && forall e :: e in t ==> !e.New? && !e.Text?
    decreases items
  {
    hide Children, StringTaken;
    if items.Item? {
      var key := if named then [Key(parent, StringTaken(items.name))] else [];
      var child, rest := [Child(parent, k)], OwnItems(items.rest, named, parent, k + Values(items.value));
      OwnHolds(items.rest, named, parent, k + Values(items.value));
      ChildrenAppend(key, child + rest, parent);
      ChildrenAppend(child, rest, parent);
      OneChild(parent, child[0]);
      if named { OneChild(parent, key[0]); } else { NothingHeld(parent); }
    } else {
      NothingHeld(parent);
    }
  }

  lemma {:induction false} OneChild(id: nat, e: Event)
    requires e.id == id
    ensures Children([e], id) == (if e.Child? then [e.child] else []) && KeyBytes([e], id) == if e.Key? then e.w + [0] else []
  {
    Adds([], e, id);
    assert [] + [e] == [e];
    NothingHeld(id);
    assert [] + (if e.Child? then [e.child] else []) == (if e.Child? then [e.child] else []);
    assert [] + (if e.Key? then e.w + [0] else []) == if e.Key? then e.w + [0] else [];
  }

  lemma {:induction false} NothingHeld(id: nat)
    ensures Children([], id) == [] && KeyBytes([], id) == [] && Labels([], id) == []
  {}

  /** Of the events on an array, `pre` and then the one that puts value `k` in. */
  lemma {:induction false} ElementHeld(b: Block, all: seq<Event>, id: nat, pre: seq<Event>, k: nat, rest: seq<Event>)
    requires Finished(b, all, id) && b.kind == Arr && Only(all, id) == pre + ([Child(id, k)] + rest)
    ensures var j := |Children(pre, id)|; j < |b.values| && b.values[j] == Some(k)
    ensures |Children(pre + [Child(id, k)], id)| == |Children(pre, id)| + 1
  {
    hide Children, KeyBytes, Labels, TextOf, Only;
    OnlyMatters(all, id);
    ChildrenAppend(pre, [Child(id, k)] + rest, id);
    ChildrenAppend([Child(id, k)], rest, id);
    ChildrenAppend(pre, [Child(id, k)], id);
    OneChild(id, Child(id, k));
    var j, c := |Children(pre, id)|, Children(all, id);
    assert c == Children(pre, id) + ([k] + Children(rest, id)) && c[j] == k;
    assert b.values[0 + j] == Some(c[j]);
  }

  /** Of the events on an object, `pre`, and then those that give it a name and value `k`. */
  lemma {:induction false} MemberHeld(b: Block, all: seq<Event>, id: nat, pre: seq<Event>, w: seq<byte>, k: nat, rest: seq<Event>)
    requires Finished(b, all, id) && b.kind == Obj && Only(all, id) == pre + ([Key(id, w)] + ([Child(id, k)] + rest))
    requires |Labels(pre, id)| == |Children(pre, id)|
    ensures var j := |Children(pre, id)|;
            && Holds(b.mem, EntryAt(j) + 16, Pointer(k))
            && exists at: nat :: Holds(b.mem, EntryAt(j), Head(at, |w|)) && Holds(b.mem, at, Chars(w + [0]))
    ensures var more := pre + [Key(id, w)] + [Child(id, k)];
            |Children(more, id)| == |Labels(more, id)| == |Children(pre, id)| + 1
  {
    hide Children, KeyBytes, Labels, TextOf, Only, Holds, Chars, Pointer, Head;
    OnlyMatters(all, id);
    var key, child, j := [Key(id, w)], [Child(id, k)], |Children(pre, id)|;
    MemberEvents(id, pre, w, k, rest);
    var base := EntryAt(|Children(all, id)|);
    var before := KeyBytes(pre, id);
    assert Labels(all, id)[j] == Label(|before|, |w|) && Children(all, id)[j] == k;
    assert Holds(b.mem, EntryAt(j), Head(base + |before|, |w|));
    SliceHeld(b.mem, base, before, w + [0], KeyBytes(rest, id));
  }

  lemma {:induction false} SliceHeld(m: Cells<Cell>, base: nat, a: seq<byte>, w: seq<byte>, z: seq<byte>)
    requires Holds(m, base, Chars(a + (w + z)))
    ensures Holds(m, base + |a|, Chars(w))
  {
    forall i | 0 <= i < |w| ensures m[base + |a| + i] == Some(Chars(w)[i]) {
      assert m[base + (|a| + i)] == Some(Chars(a + (w + z))[|a| + i]);
    }
  }

  lemma {:induction false} MemberEvents(id: nat, pre: seq<Event>, w: seq<byte>, k: nat, rest: seq<Event>)
    requires |Labels(pre, id)| == |Children(pre, id)|
    ensures var own, j := pre + ([Key(id, w)] + ([Child(id, k)] + rest)), |Children(pre, id)|;
            && j < |Children(own, id)| && Children(own, id)[j] == k
            && j < |Labels(own, id)| && Labels(own, id)[j] == Label(|KeyBytes(pre, id)|, |w|)
            && KeyBytes(own, id) == KeyBytes(pre, id) + ((w + [0]) + KeyBytes(rest, id))
    ensures var more := pre + [Key(id, w)] + [Child(id, k)];
            |Children(more, id)| == |Labels(more, id)| == |Children(pre, id)| + 1
  {
    hide Children, KeyBytes, Labels;
    var key, child := [Key(id, w)], [Child(id, k)];
    var own := pre + (key + (child + rest));
    OneChild(id, key[0]);
    OneChild(id, child[0]);
    ChildrenAppend(pre, key + (child + rest), id);
    ChildrenAppend(key, child + rest, id);
    ChildrenAppend(child, rest, id);
    KeyBytesAppend(pre, key + (child + rest), id);
    KeyBytesAppend(key, child + rest, id);
    KeyBytesAppend(child, rest, id);
    LabelsAdds(pre, key[0], id);
    assert own == (pre + key) + (child + rest);
    LabelsGrow(pre + key, child + rest, id);
    LabelsAdds(pre + key, child[0], id);
    Adds(pre, key[0], id);
    Adds(pre + key, child[0], id);
  }

  /** Memory in which every value is finished represents the document it was made for. */
  lemma {:induction false} BuiltValue(blocks: seq<Block>, all: seq<Event>, d: Doc, k: nat)
    requires LegalDoc(d) && Local(all, Made(d, k), k, Values(d)) && k + Values(d) <= |blocks|
    requires forall id :: 0 <= id < |blocks| ==> Finished(blocks[id], all, id)
    ensures Represents(blocks, k, d)
    decreases d, 0
  {
    hide Only, Finished, Represents, RepresentsItems, MadeItems, StringTaken;
    if d.Sequence? || d.Dictionary? {
      BuiltHolder(blocks, all, d, k);
    } else {
      assert Finished(blocks[k], all, k) && Only(all, k) == Only(Made(d, k), k);
      BuiltPlain(blocks, all, d, k);
    }
  }

  lemma {:induction false} BuiltPlain(blocks: seq<Block>, all: seq<Event>, d: Doc, k: nat)
    requires LegalDoc(d) && !d.Sequence? && !d.Dictionary? && k < |blocks| && Finished(blocks[k], all, k)
    requires Only(all, k) == Only(Made(d, k), k)
    ensures Represents(blocks, k, d)
  {
    hide Children, KeyBytes, Labels, TextOf, StringTaken, Only, Holds, HeadsHeld, ValuesHeld;
    OnlyMatters(all, k);
    OnlyMatters(Made(d, k), k);
    if d.Quoted? { TextMade(d, k); }
  }

  lemma {:induction false} TextMade(d: Doc, k: nat)
    requires LegalDoc(d) && d.Quoted?
    ensures TextOf(Made(d, k), k) == Some(StringTaken(d.ps))
  {
    hide StringTaken;
    var w := StringTaken(d.ps);
    assert Made(d, k) == [New(k, Str)] + [Text(k, w)];
    Adds([New(k, Str)], Text(k, w), k);
  }

  lemma {:induction false} BuiltHolder(blocks: seq<Block>, all: seq<Event>, d: Doc, k: nat)
    requires LegalDoc(d) && (d.Sequence? || d.Dictionary?) && Local(all, Made(d, k), k, Values(d)) && k + Values(d) <= |blocks|
    requires forall id :: 0 <= id < |blocks| ==> Finished(blocks[id], all, id)
    ensures Represents(blocks, k, d)
    decreases d.items, 2
  {
    hide Only, Finished, RepresentsItems, OwnItems, MadeItems, Children, KeyBytes, Labels, TextOf, LegalItems;
    var named, first := d.Dictionary?, [New(k, if d.Dictionary? then Obj else Arr)];
    LocalHolder(all, d.items, named, k);
    HolderHeld(blocks[k], all, d.items, named, k);
    HoldsNothing(k, first[0]);
    BuiltItems(blocks, all, d.items, named, k, k + 1, first);
  }

  lemma {:induction false} HoldsNothing(k: nat, e: Event)
    requires e.New? && e.id == k
    ensures Children([e], k) == [] && Labels([e], k) == []
  {
    OneChild(k, e);
    LabelsAdds([], e, k);
    assert [] + [e] == [e];
    NothingHeld(k);
  }

  lemma {:induction false} HolderHeld(b: Block, all: seq<Event>, items: Items, named: bool, k: nat)
    requires LegalItems(items) && Finished(b, all, k)
    requires Only(all, k) == [New(k, if named then Obj else Arr)] + OwnItems(items, named, k, k + 1)
    ensures b.kind == (if named then Obj else Arr) && b.filled == Size(items) && (!named ==> |b.values| == Size(items))
  {
    hide Only, OwnItems, Children, KeyBytes, Labels, TextOf, Holds, HeadsHeld, ValuesHeld;
    OnlyMatters(all, k);
    OwnHolds(items, named, k, k + 1);
    var first := [New(k, if named then Obj else Arr)];
    ChildrenAppend(first, OwnItems(items, named, k, k + 1), k);
    HoldsNothing(k, first[0]);
  }

  lemma {:induction false} BuiltItems(blocks: seq<Block>, all: seq<Event>, items: Items, named: bool, parent: nat, k: nat, pre: seq<Event>)
    requires LegalItems(items) && parent < k && k + ItemValues(items) <= |blocks| && blocks[parent].kind == (if named then Obj else Arr)
    requires Only(all, parent) == pre + OwnItems(items, named, parent, k) && (named ==> |Labels(pre, parent)| == |Children(pre, parent)|)
    requires Local(all, MadeItems(items, named, parent, k), k, ItemValues(items))
    requires forall id :: 0 <= id < |blocks| ==> Finished(blocks[id], all, id)
    ensures parent < |blocks| && RepresentsItems(blocks, blocks[parent], items, named, |Children(pre, parent)|, k)
    decreases items, 1
  {
    hide Only, Finished, Represents, Children, KeyBytes, Labels, TextOf, MadeItems, Made, StringTaken, Holds;
    if items.Item? {
      var b, next := blocks[parent], k + Values(items.value);
      var rest := OwnItems(items.rest, named, parent, next);
      assert Finished(b, all, parent);
      LocalItem(all, items, named, parent, k);
      BuiltValue(blocks, all, items.value, k);
      if named {
        var w := StringTaken(items.name);
        MemberHeld(b, all, parent, pre, w, k, rest);
        assert pre + ([Key(parent, w)] + ([Child(parent, k)] + rest)) == (pre + [Key(parent, w)] + [Child(parent, k)]) + rest;
        BuiltItems(blocks, all, items.rest, named, parent, next, pre + [Key(parent, w)] + [Child(parent, k)]);
      } else {
        assert [] + ([Child(parent, k)] + rest) == [Child(parent, k)] + rest;
        ElementHeld(b, all, parent, pre, k, rest);
        assert pre + ([Child(parent, k)] + rest) == (pre + [Child(parent, k)]) + rest;
        BuiltItems(blocks, all, items.rest, named, parent, next, pre + [Child(parent, k)]);
      }
    }
  }

  // ----- objects that fit -----

  /** No object has entries of 2^31 bytes or more. */
  predicate Roomy(d: Doc) {
    match d
    case Sequence(items) => RoomyItems(items)
    case Dictionary(items) => EntryAt(Size(items)) <= 2147483647 && RoomyItems(items)
    case _ => true
  }

  predicate RoomyItems(items: Items) { items.End? || (Roomy(items.value) && RoomyItems(items.rest)) }

  ghost predicate NoneTooLarge(all: seq<Event>, k: nat, n: nat) { forall id :: k <= id < k + n ==> !TooLarge(all, id) }

  lemma {:induction false} RoomyMeans(all: seq<Event>, d: Doc, k: nat)
    requires LegalDoc(d) && Local(all, Made(d, k), k, Values(d))
    ensures Roomy(d) <==> NoneTooLarge(all, k, Values(d))
    decreases d, 0
  {
    hide Only, TooLarge, MadeItems, StringTaken, RoomyItems;
    if d.Sequence? || d.Dictionary? {
      LocalHolder(all, d.items, d.Dictionary?, k);
      RoomyItemsMean(all, d.items, d.Dictionary?, k, k + 1);
      HolderTooLarge(all, d.items, d.Dictionary?, k);
      assert NoneTooLarge(all, k, 1 + ItemValues(d.items)) <==> !TooLarge(all, k) && NoneTooLarge(all, k + 1, ItemValues(d.items));
    } else {
      assert Only(all, k) == Only(Made(d, k), k);
      PlainNotTooLarge(all, d, k);
    }
  }

  lemma {:induction false} PlainNotTooLarge(all: seq<Event>, d: Doc, k: nat)
    requires LegalDoc(d) && !d.Sequence? && !d.Dictionary? && Only(all, k) == Only(Made(d, k), k)
    ensures !TooLarge(all, k)
  {
    hide Children, StringTaken, KeyBytes, Labels, TextOf;
    OnlyMatters(all, k);
    OnlyMatters(Made(d, k), k);
  }

  lemma {:induction false} HolderTooLarge(all: seq<Event>, items: Items, named: bool, k: nat)
    requires LegalItems(items) && Only(all, k) == [New(k, if named then Obj else Arr)] + OwnItems(items, named, k, k + 1)
    ensures TooLarge(all, k) <==> named && EntryAt(Size(items)) > 2147483647
  {
    hide Only, OwnItems, Children, KeyBytes, Labels, TextOf;
    OnlyMatters(all, k);
    OwnHolds(items, named, k, k + 1);
    var first := [New(k, if named then Obj else Arr)];
    ChildrenAppend(first, OwnItems(items, named, k, k + 1), k);
    HoldsNothing(k, first[0]);
    assert Only(all, k)[0] == first[0];
  }

  lemma {:induction false} RoomyItemsMean(all: seq<Event>, items: Items, named: bool, parent: nat, k: nat)
    requires LegalItems(items) && parent < k && Local(all, MadeItems(items, named, parent, k), k, ItemValues(items))
    ensures RoomyItems(items) <==> NoneTooLarge(all, k, ItemValues(items))
    decreases items, 1
  {
    hide Only, TooLarge, MadeItems, Made, Roomy;
    if items.Item? {
      var next := k + Values(items.value);
      LocalItem(all, items, named, parent, k);
      RoomyMeans(all, items.value, k);
      RoomyItemsMean(all, items.rest, named, parent, next);
      assert NoneTooLarge(all, k, ItemValues(items))
        <==> NoneTooLarge(all, k, Values(items.value)) && NoneTooLarge(all, next, ItemValues(items.rest));
    }
  }

  lemma {:induction false} NewsMade(d: Doc, k: nat)
    requires LegalDoc(d)
    ensures News(Made(d, k)) == Values(d)
    decreases d, 0
  {
    hide MadeItems, StringTaken;
    if d.Sequence? || d.Dictionary? {
      var first := [New(k, KindOf(d))];
      NewsItems(d.items, d.Dictionary?, k, k + 1);
      NewsAppend(first, MadeItems(d.items, d.Dictionary?, k, k + 1));
      OneNews(first[0]);
    } else if d.Quoted? {
      assert Made(d, k) == [New(k, Str)] + [Text(k, StringTaken(d.ps))];
      NewsAppend([New(k, Str)], [Text(k, StringTaken(d.ps))]);
      OneNews(New(k, Str));
      OneNews(Text(k, StringTaken(d.ps)));
    } else {
      OneNews(New(k, KindOf(d)));
    }
  }

  lemma {:induction false} OneNews(e: Event)
    ensures News([e]) == if e.New? then 1 else 0
  {
    assert [e][..0] == [];
  }

  lemma {:induction false} NewsItems(items: Items, named: bool, parent: nat, k: nat)
    requires LegalItems(items)
    ensures News(MadeItems(items, named, parent, k)) == ItemValues(items)
    decreases items, 1
  {
    hide Made, News, StringTaken;
    if items.Item? {
      var key := if named then [Key(parent, StringTaken(items.name))] else [];
      var value, child := Made(items.value, k), [Child(parent, k)];
      var rest := MadeItems(items.rest, named, parent, k + Values(items.value));
      NewsMade(items.value, k);
      NewsItems(items.rest, named, parent, k + Values(items.value));
      NewsAppend(key, value + (child + rest));
      NewsAppend(value, child + rest);
      NewsAppend(child, rest);
      OneNews(child[0]);
      if named { OneNews(key[0]); } else { NoNews(); }
    } else {
      NoNews();
    }
  }

  lemma {:induction false} NoNews()
    ensures News([]) == 0
  {}

  // ----- whole documents -----

  /** What reading a document should come to. */
  ghost predicate Reads(d: Doc, r: Reading)
    requires LegalDoc(d)
  {
    && (r.Refused? <==> !Readable(d)) && (r.Built? <==> Readable(d) && Roomy(d))
    && (r.Built? ==> |r.blocks| == Values(d) && Represents(r.blocks, 0, d))
  }

  lemma {:induction false} OutcomeReads(d: Doc, r: Reading)
    requires LegalDoc(d) && Readable(d) && Outcome(r, Made(d, 0))
    ensures Reads(d, r)
  {
    hide Only, TooLarge, Finished, Represents, Made;
    var all := Made(d, 0);
    RoomyMeans(all, d, 0);
    NewsMade(d, 0);
    match r
    case Built(blocks) => BuiltValue(blocks, all, d, 0);
    case Exhausted(id) => OnlyMadeTooLarge(d, id);
    case Misplaced(id) => OnlyMadeTooLarge(d, id);
  }

  lemma {:induction false} OnlyMadeTooLarge(d: Doc, id: nat)
    requires LegalDoc(d) && TooLarge(Made(d, 0), id)
    ensures id < Values(d)
  {
    hide Made, Children;
    MadeWithin(d, 0);
  }

  /** Reading a document as it is written: it is refused exactly if a number has a fraction behind
      a whole part beyond 64 bits or something is too long, and built exactly if moreover no
      object is too large; what is built is the document. */
  method ReadDocument(comments: bool, d: Doc) returns (r: Reading)
    requires LegalDoc(d)
    ensures Reads(d, r)
  {
    hide Run, Reads, Outcome, DocText, Readable, Made;
    NoMark(d);
    DocRuns(comments, d);
    r := Parse(comments, DocText(d));
    if Readable(d) { OutcomeReads(d, r); } else { RefusedReads(d); }
  }

  lemma {:induction false} RefusedReads(d: Doc)
    requires LegalDoc(d) && !Readable(d)
    ensures Reads(d, Refused)
  {}

  /** Any bytes at all, quoted, are read back. */
  method ReadString(comments: bool, w: seq<byte>) returns (r: Reading)
    requires |w| <= LIMIT
    ensures r.Built? && |r.blocks| == 1 && r.blocks[0].kind == Str && |r.blocks[0].text| == |w| + 1 && Holds(r.blocks[0].text, 0, w + [0])
  {
    hide Quote, StringTaken, Holds;
    QuoteMeans(w);
    r := ReadDocument(comments, Quoted(Quote(w)));
  }

  /** And so are they as the name of a member. */
  method ReadName(comments: bool, w: seq<byte>) returns (r: Reading)
    requires |w| <= LIMIT
    ensures r.Built? && |r.blocks| == 2 && r.blocks[0].kind == Obj && r.blocks[1].kind == Scalar
    ensures var m := r.blocks[0].mem;
            && Holds(m, 16, Pointer(1))
            && exists at: nat :: Holds(m, 0, Head(at, |w|)) && Holds(m, at, Chars(w + [0]))
  {
    hide Quote, StringTaken, Holds, Head, Pointer, Chars, Represents;
    QuoteMeans(w);
    OneMember(Quote(w));
    r := ReadDocument(comments, Dictionary(Item(Quote(w), Null, End)));
    OneMemberHeld(r.blocks, Quote(w));
  }

  lemma {:induction false} OneMember(ps: seq<Piece>)
    requires AllLegal(ps) && |StringTaken(ps)| <= LIMIT
    ensures var d := Dictionary(Item(ps, Null, End)); LegalDoc(d) && Readable(d) && Roomy(d) && Values(d) == 2
  {
    hide StringTaken, LegalItems, ReadableItems, RoomyItems, Size, ItemValues;
    WordIs(Null, 1);
    NoneAtAll();
    ItemIs(ps, Null, End);
  }

  lemma {:induction false} NoneAtAll()
    ensures LegalItems(End) && ReadableItems(End, true) && RoomyItems(End) && Size(End) == 0 && ItemValues(End) == 0
  {}

  lemma {:induction false} ItemIs(name: seq<Piece>, value: Doc, rest: Items)
    requires AllLegal(name) && LegalDoc(value) && LegalItems(rest)
    ensures var items := Item(name, value, rest);
            && LegalItems(items) && Size(items) == 1 + Size(rest) && ItemValues(items) == Values(value) + ItemValues(rest)
            && RoomyItems(items) == (Roomy(value) && RoomyItems(rest))
            && ReadableItems(items, true) == (|StringTaken(name)| <= LIMIT && Readable(value) && ReadableItems(rest, true))
  {
    hide StringTaken, Readable, Roomy, Values;
  }

  lemma {:induction false} OneMemberHeld(blocks: seq<Block>, ps: seq<Piece>)
    requires AllLegal(ps) && var d := Dictionary(Item(ps, Null, End)); LegalDoc(d) && Represents(blocks, 0, d)
    ensures |blocks| > 1 && blocks[0].kind == Obj && blocks[1].kind == Scalar && ItemAt(blocks[0], ps, true, 0, 1)
  {
    hide StringTaken, ItemAt;
    assert RepresentsItems(blocks, blocks[0], Item(ps, Null, End), true, 0, 1);
    assert Represents(blocks, 1, Null);
  }
}
