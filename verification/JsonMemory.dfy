/** The memory of the JSON reader: what the first pass counts is exactly what the second
    writes, value by value and byte by byte. */
module JsonMemory {
  import opened Basics
  import opened Json
  import opened JsonTrace
  import opened JsonMembers

  // ----- the second pass -----

  /** Memory that may not have been written yet. */
  type Cells<T> = seq<Option<T>>

  ghost predicate Holds<T>(m: Cells<T>, at: nat, data: seq<T>) {
    at + |data| <= |m| && forall i :: 0 <= i < |data| ==> m[at + i] == Some(data[i])
  }

  function Blank<T>(n: nat): (m: Cells<T>)
    ensures |m| == n
  {
    seq(n, _ => None)
  }

  /** A byte of an object's block: a character of a name, or a part of an entry's pointer to
      its name, of the length of that name, or of the pointer to its value. */
  datatype Cell = Char(b: byte) | Name(at: int, part: nat) | Length(chars: nat, part: nat) | Member(child: nat, part: nat)

  function Chars(w: seq<byte>): (m: seq<Cell>)
    ensures |m| == |w| && forall i :: 0 <= i < |w| ==> m[i] == Char(w[i])
  {
    seq(|w|, i requires 0 <= i < |w| => Char(w[i]))
  }

  /** The first two fields of an entry: the address of the name and its length. */
  function Head(at: int, chars: nat): (m: seq<Cell>)
    ensures |m| == 12
  {
    seq(12, i => if 0 <= i < 8 then Name(at, i) else if i >= 8 then Length(chars, i - 8) else Char(0))
  }

  /** The last field of an entry, after four bytes that are never written. */
  function Pointer(child: nat): (m: seq<Cell>)
    ensures |m| == 8
  {
    seq(8, i => if i >= 0 then Member(child, i) else Char(0))
  }

  /** Where an entry begins. */
  function EntryAt(j: nat): nat { 24 * j }

  /** Where the names of an object begin: the size of its entries, as an int. */
  function NamesAt(items: nat): int { ToInt(EntryAt(items)) }

  /** The memory of one value: the members of an array, the block of an object, or the text of
      a string. In an object's block the entries come first and the names after them, and
      `cursor` is where the next name goes. */
  datatype Block = Block(kind: Kind, values: Cells<nat>, filled: nat, mem: Cells<Cell>, cursor: nat, text: Cells<byte>)

  /** Whether the entries of an object are as large as an int can say. */
  predicate Fits(n: Node) { NamesAt(n.items) == EntryAt(n.items) }

  /** Allocates what the first pass counted for a value of this kind. */
  function Allocate(n: Node, k: Kind): Block
    requires k == Obj ==> Fits(n)
  {
    match k
    case Obj => Block(k, [], 0, Blank(NamesAt(n.items) + n.keyBytes), NamesAt(n.items), [])
    case Arr => Block(k, Blank(n.items), 0, [], 0, [])
    case Str => Block(k, [], 0, [], 0, Blank(n.chars + 1))
    case _ => Block(k, [], 0, [], 0, [])
  }

  /** An object's block after the part `done` of the whole trace `all`: the names read so far,
      and for every name and every value of a member its entry's fields. */
  ghost predicate FilledObject(b: Block, done: seq<Event>, all: seq<Event>, id: nat) {
    var base := EntryAt(|Children(all, id)|);
    && |b.mem| == base + |KeyBytes(all, id)| && b.filled == |Children(done, id)| && b.cursor == base + |KeyBytes(done, id)|
    && |Children(done, id)| <= |Children(all, id)| && |Labels(done, id)| <= |Children(all, id)|
    && Holds(b.mem, base, Chars(KeyBytes(done, id)))
    && HeadsHeld(b.mem, base, Labels(done, id)) && ValuesHeld(b.mem, Children(done, id))
  }

  ghost predicate HeadsHeld(m: Cells<Cell>, base: nat, labels: seq<Label>) {
    forall j :: 0 <= j < |labels| ==> Holds(m, EntryAt(j), Head(base + labels[j].start, labels[j].chars))
  }

  ghost predicate ValuesHeld(m: Cells<Cell>, children: seq<nat>) {
    forall j :: 0 <= j < |children| ==> Holds(m, EntryAt(j) + 16, Pointer(children[j]))
  }

  /** Value `id` after the part `done` of the whole trace `all`: its memory has the size the
      whole trace needs, and holds what has been done so far. */
  ghost predicate Filled(b: Block, done: seq<Event>, all: seq<Event>, id: nat) {
    && New(id, b.kind) in done
    && (b.kind == Arr ==> |b.values| == |Children(all, id)| && b.filled == |Children(done, id)| && Holds(b.values, 0, Children(done, id)))
    && (b.kind == Obj ==> FilledObject(b, done, all, id))
    && (b.kind == Str && TextOf(all, id).Some? ==> |b.text| == |TextOf(all, id).value| + 1)
    && (b.kind == Str && TextOf(done, id).Some? ==> Holds(b.text, 0, TextOf(done, id).value + [0]))
  }

  method Put<T>(m: Cells<T>, at: nat, data: seq<T>) returns (m': Cells<T>)
    requires at + |data| <= |m|
    ensures |m'| == |m| && Holds(m', at, data)
    ensures forall i :: 0 <= i < |m| && (i < at || i >= at + |data|) ==> m'[i] == m[i]
  {
    m' := m;
    for k := 0 to |data|
      invariant |m'| == |m| && Holds(m', at, data[..k])
      invariant forall i :: 0 <= i < |m| && (i < at || i >= at + k) ==> m'[i] == m[i]
    {
      m' := m'[at + k := Some(data[k])];
      assert data[..k + 1] == data[..k] + [data[k]];
    }
    assert data[..|data|] == data;
  }

  /** Every value made so far is filled as far as the trace has gone. */
  ghost predicate Sits(blocks: seq<Block>, done: seq<Event>, all: seq<Event>) {
    && (forall i :: 0 <= i < |done| ==> done[i].id < |blocks|)
    && (forall id :: 0 <= id < |blocks| ==> Filled(blocks[id], done, all, id))
  }

  /** The next event finds what it needs. */
  ghost predicate Ready(blocks: seq<Block>, nodes: seq<Node>, e: Event, all: seq<Event>) {
    match e
    case New(id, k) => id == |blocks| < |nodes| && (k == Obj ==> Fits(nodes[id]))
    case Text(id, w) => id < |blocks| && blocks[id].kind == Str && Holds(blocks[id].text, 0, w) && TextOf(all, id) == Some(w)
    case Key(id, w) => id < |blocks| && blocks[id].kind == Obj && Holds(blocks[id].mem, blocks[id].cursor, Chars(w))
    case Child(id, _) => id < |blocks| && Holder(blocks[id].kind)
  }

  /** Carries out one event; every write is inside the memory of its value. */
  method Perform(blocks: seq<Block>, nodes: seq<Node>, e: Event, ghost done: seq<Event>, ghost rest: seq<Event>, ghost all: seq<Event>)
      returns (blocks': seq<Block>)
    requires all == done + [e] + rest && Sits(blocks, done, all) && Ready(blocks, nodes, e, all) && Matched(all)
    requires forall id :: 0 <= id < |nodes| ==> Counted(nodes[id], all, id)
    ensures Sits(blocks', done + [e], all) && |blocks'| == |blocks| + if e.New? then 1 else 0
    ensures forall id :: 0 <= id < |blocks| ==> blocks'[id].kind == blocks[id].kind && (id != e.id ==> blocks'[id] == blocks[id])
    ensures e.New? ==> blocks'[|blocks|].kind == e.kind
  {
    hide Filled, Counted;
    OthersKeep(blocks, done, e, all);
    match e
    case New(id, k) =>
      NewFits(blocks, nodes[id], done, e, all);
      blocks' := blocks + [Allocate(nodes[id], k)];
    case Text(id, w) =>
      var b := blocks[id];
      TextFits(b, done, e, rest, all);
      var text := Put(b.text, |w|, [0]);
      TextDone(b, text, done, e, rest, all);
      blocks' := blocks[id := b.(text := text)];
    case Key(id, w) =>
      var b := blocks[id];
      KeyFits(b, done, e, rest, all);
      var named := Put(b.mem, b.cursor + |w|, [Char(0)]);
      var mem := Put(named, EntryAt(b.filled), Head(b.cursor, |w|));
      KeyDone(b, named, mem, done, e, rest, all);
      blocks' := blocks[id := b.(mem := mem, cursor := b.cursor + |w| + 1)];
    case Child(id, child) =>
      var b := blocks[id];
      ChildFits(b, done, e, rest, all);
      if b.kind == Arr {
        var values := Put(b.values, b.filled, [child]);
        ElementDone(b, values, done, e, rest, all);
        blocks' := blocks[id := b.(values := values, filled := b.filled + 1)];
      } else {
        var mem := Put(b.mem, EntryAt(b.filled) + 16, Pointer(child));
        MemberDone(b, mem, done, e, rest, all);
        blocks' := blocks[id := b.(mem := mem, filled := b.filled + 1)];
      }
  }

  lemma {:induction false} OthersKeep(blocks: seq<Block>, done: seq<Event>, e: Event, all: seq<Event>)
    requires Sits(blocks, done, all)
    ensures forall id :: 0 <= id < |blocks| && (id != e.id || e.New?) ==> Filled(blocks[id], done + [e], all, id)
  {
    forall id | 0 <= id < |blocks| && (id != e.id || e.New?) ensures Filled(blocks[id], done + [e], all, id) {
      Adds(done, e, id);
      LabelsAdds(done, e, id);
    }
  }

  lemma {:induction false} NewFits(blocks: seq<Block>, n: Node, done: seq<Event>, e: Event, all: seq<Event>)
    requires Sits(blocks, done, all) && e.New? && e.id == |blocks| && Counted(n, all, e.id) && (e.kind == Obj ==> Fits(n))
    ensures Filled(Allocate(n, e.kind), done + [e], all, e.id)
  {
    hide Children, KeyBytes, TextOf, Labels;
    NoEvents(done, e.id);
    NoLabels(done, e.id);
    Adds(done, e, e.id);
    LabelsAdds(done, e, e.id);
  }

  lemma {:induction false} TextFits(b: Block, done: seq<Event>, e: Event, rest: seq<Event>, all: seq<Event>)
    requires e.Text? && Filled(b, done, all, e.id) && b.kind == Str && TextOf(all, e.id) == Some(e.w)
    ensures |b.text| == |e.w| + 1
  {}

  lemma {:induction false} TextDone(b: Block, text: Cells<byte>, done: seq<Event>, e: Event, rest: seq<Event>, all: seq<Event>)
    requires e.Text? && Filled(b, done, all, e.id) && b.kind == Str && TextOf(all, e.id) == Some(e.w) && Holds(b.text, 0, e.w)
    requires |text| == |b.text| == |e.w| + 1 && Holds(text, |e.w|, [0]) && forall i :: 0 <= i < |e.w| ==> text[i] == b.text[i]
    ensures Filled(b.(text := text), done + [e], all, e.id)
  {
    Adds(done, e, e.id);
    var d := e.w + [0];
    forall i | 0 <= i < |d| ensures text[0 + i] == Some(d[i]) {
      if i < |e.w| { assert b.text[0 + i] == Some(e.w[i]); } else { assert text[|e.w| + 0] == Some([0][0]); }
    }
  }

  /** What lies apart from a write stays. */
  lemma {:induction false} HoldsApart<T>(m: Cells<T>, m': Cells<T>, at: nat, data: seq<T>, lo: nat, hi: nat)
    requires Holds(m, at, data) && |m'| == |m| && (at + |data| <= lo || hi <= at)
    requires forall i :: 0 <= i < |m| && (i < lo || i >= hi) ==> m'[i] == m[i]
    ensures Holds(m', at, data)
  {}

  lemma {:induction false} HeadsApart(m: Cells<Cell>, m': Cells<Cell>, base: nat, labels: seq<Label>, lo: nat, hi: nat)
    requires HeadsHeld(m, base, labels) && |m'| == |m|
    requires forall i :: 0 <= i < |m| && (i < lo || i >= hi) ==> m'[i] == m[i]
    requires forall j :: 0 <= j < |labels| ==> EntryAt(j) + 12 <= lo || hi <= EntryAt(j)
    ensures HeadsHeld(m', base, labels)
  {
    hide Holds, EntryAt;
    forall j | 0 <= j < |labels| ensures Holds(m', EntryAt(j), Head(base + labels[j].start, labels[j].chars)) {
      HoldsApart(m, m', EntryAt(j), Head(base + labels[j].start, labels[j].chars), lo, hi);
    }
  }

  lemma {:induction false} ValuesApart(m: Cells<Cell>, m': Cells<Cell>, children: seq<nat>, lo: nat, hi: nat)
    requires ValuesHeld(m, children) && |m'| == |m|
    requires forall i :: 0 <= i < |m| && (i < lo || i >= hi) ==> m'[i] == m[i]
    requires forall j :: 0 <= j < |children| ==> EntryAt(j) + 24 <= lo || hi <= EntryAt(j) + 16
    ensures ValuesHeld(m', children)
  {
    hide Holds, EntryAt;
    forall j | 0 <= j < |children| ensures Holds(m', EntryAt(j) + 16, Pointer(children[j])) {
      HoldsApart(m, m', EntryAt(j) + 16, Pointer(children[j]), lo, hi);
    }
  }

  /** Writing behind the last name changes nothing that is there. */
  lemma {:induction false} BehindApart(b: Block, mem: Cells<Cell>, done: seq<Event>, all: seq<Event>, id: nat)
    requires FilledObject(b, done, all, id) && |mem| == |b.mem| && forall i :: 0 <= i < b.cursor ==> mem[i] == b.mem[i]
    ensures FilledObject(b.(mem := mem), done, all, id)
  {
    hide HeadsHeld, ValuesHeld, Children, KeyBytes, Labels;
    HeadsApart(b.mem, mem, EntryAt(|Children(all, id)|), Labels(done, id), b.cursor, |mem|);
    ValuesApart(b.mem, mem, Children(done, id), b.cursor, |mem|);
  }

  lemma {:induction false} KeyFits(b: Block, done: seq<Event>, e: Event, rest: seq<Event>, all: seq<Event>)
    requires e.Key? && all == done + [e] + rest && Filled(b, done, all, e.id) && b.kind == Obj && Matched(all)
    ensures |Labels(done, e.id)| == b.filled < |Children(all, e.id)|
    ensures EntryAt(b.filled) + 12 <= b.cursor && b.cursor + |e.w| + 1 <= |b.mem|
  {
    hide HeadsHeld, ValuesHeld, Holds, Labels, Children;
    assert Object(all, e.id);
    KeyBytesAppend(done + [e], rest, e.id);
    Adds(done, e, e.id);
    NamesNext(done, e, rest, all);
  }

  lemma {:induction false} KeyDone(b: Block, named: Cells<Cell>, mem: Cells<Cell>, done: seq<Event>, e: Event, rest: seq<Event>, all: seq<Event>)
    requires e.Key? && Filled(b, done, all, e.id) && b.kind == Obj && Holds(b.mem, b.cursor, Chars(e.w))
    requires |Labels(done, e.id)| == b.filled < |Children(all, e.id)| && b.cursor + |e.w| + 1 <= |b.mem|
    requires |named| == |b.mem| && Holds(named, b.cursor + |e.w|, [Char(0)])
    requires forall i :: 0 <= i < b.cursor + |e.w| ==> named[i] == b.mem[i]
    requires |mem| == |named| && Holds(mem, EntryAt(b.filled), Head(b.cursor, |e.w|))
    requires forall i :: 0 <= i < |named| && (i < EntryAt(b.filled) || i >= EntryAt(b.filled) + 12) ==> mem[i] == named[i]
    ensures Filled(b.(mem := mem, cursor := b.cursor + |e.w| + 1), done + [e], all, e.id)
  {
    hide HeadsHeld, ValuesHeld, Children, KeyBytes, Labels, Head, Holds, TextOf;
    var id, base := e.id, EntryAt(|Children(all, e.id)|);
    Adds(done, e, id);
    LabelsAdds(done, e, id);
    HeadsApart(b.mem, named, base, Labels(done, id), b.cursor + |e.w|, |named|);
    HeadsApart(named, mem, base, Labels(done, id), EntryAt(b.filled), EntryAt(b.filled) + 12);
    HeadsAdd(mem, base, Labels(done, id), Label(|KeyBytes(done, id)|, |e.w|));
    ValuesApart(b.mem, named, Children(done, id), b.cursor + |e.w|, |named|);
    ValuesApart(named, mem, Children(done, id), EntryAt(b.filled), EntryAt(b.filled) + 12);
    NameHeld(b, named, mem, KeyBytes(done, id), e.w, base);
    assert KeyBytes(done + [e], id) == KeyBytes(done, id) + (e.w + [0]) && Children(done + [e], id) == Children(done, id);
    assert New(id, Obj) in done + [e];
    assert FilledObject(b.(mem := mem, cursor := b.cursor + |e.w| + 1), done + [e], all, id);
  }

  lemma {:induction false} HeadsAdd(m: Cells<Cell>, base: nat, labels: seq<Label>, l: Label)
    requires HeadsHeld(m, base, labels) && Holds(m, EntryAt(|labels|), Head(base + l.start, l.chars))
    ensures HeadsHeld(m, base, labels + [l])
  {
    hide Holds, EntryAt, Head;
  }

  /** The names before it, the characters read before, and then its zero. */
  lemma {:induction false} NameHeld(b: Block, named: Cells<Cell>, mem: Cells<Cell>, before: seq<byte>, w: seq<byte>, base: nat)
    requires Holds(b.mem, base, Chars(before)) && b.cursor == base + |before| && Holds(b.mem, b.cursor, Chars(w))
    requires |mem| == |named| == |b.mem| && Holds(named, b.cursor + |w|, [Char(0)])
    requires forall i :: 0 <= i < b.cursor + |w| ==> named[i] == b.mem[i]
    requires forall i :: base <= i < |named| ==> mem[i] == named[i]
    ensures Holds(mem, base, Chars(before + (w + [0])))
  {
    var d := Chars(before + (w + [0]));
    forall i | 0 <= i < |d| ensures mem[base + i] == Some(d[i]) {
      if i < |before| { assert b.mem[base + i] == Some(Chars(before)[i]); }
      else if i < |before| + |w| { assert b.mem[b.cursor + (i - |before|)] == Some(Chars(w)[i - |before|]); }
      else { assert named[b.cursor + |w| + 0] == Some([Char(0)][0]); }
    }
  }

  lemma {:induction false} ChildFits(b: Block, done: seq<Event>, e: Event, rest: seq<Event>, all: seq<Event>)
    requires e.Child? && all == done + [e] + rest && Filled(b, done, all, e.id) && Holder(b.kind)
    ensures b.filled < |Children(all, e.id)|
    ensures if b.kind == Arr then b.filled < |b.values| else EntryAt(b.filled) + 24 <= |b.mem|
  {
    hide HeadsHeld, ValuesHeld, Holds, Labels, KeyBytes;
    ChildrenAppend(done + [e], rest, e.id);
    Adds(done, e, e.id);
  }

  lemma {:induction false} ElementDone(b: Block, values: Cells<nat>, done: seq<Event>, e: Event, rest: seq<Event>, all: seq<Event>)
    requires e.Child? && Filled(b, done, all, e.id) && b.kind == Arr
    requires |values| == |b.values| && b.filled < |values| && Holds(values, b.filled, [e.child])
    requires forall i :: 0 <= i < b.filled ==> values[i] == b.values[i]
    ensures Filled(b.(values := values, filled := b.filled + 1), done + [e], all, e.id)
  {
    Adds(done, e, e.id);
    var old', d := Children(done, e.id), Children(done + [e], e.id);
    forall i | 0 <= i < |d| ensures values[0 + i] == Some(d[i]) {
      if i < |old'| { assert b.values[0 + i] == Some(old'[i]); } else { assert values[b.filled + 0] == Some([e.child][0]); }
    }
  }

  lemma {:induction false} MemberDone(b: Block, mem: Cells<Cell>, done: seq<Event>, e: Event, rest: seq<Event>, all: seq<Event>)
    requires e.Child? && Filled(b, done, all, e.id) && b.kind == Obj && b.filled < |Children(all, e.id)|
    requires |mem| == |b.mem| && Holds(mem, EntryAt(b.filled) + 16, Pointer(e.child))
    requires forall i :: 0 <= i < |mem| && (i < EntryAt(b.filled) + 16 || i >= EntryAt(b.filled) + 24) ==> mem[i] == b.mem[i]
    ensures Filled(b.(mem := mem, filled := b.filled + 1), done + [e], all, e.id)
  {
    hide HeadsHeld, ValuesHeld, Children, KeyBytes, Labels, Head, Holds, TextOf, Pointer;
    var id, base, at := e.id, EntryAt(|Children(all, e.id)|), EntryAt(b.filled);
    Adds(done, e, id);
    LabelsAdds(done, e, id);
    HeadsApart(b.mem, mem, base, Labels(done, id), at + 16, at + 24);
    ValuesApart(b.mem, mem, Children(done, id), at + 16, at + 24);
    ValuesAdd(mem, Children(done, id), e.child);
    HoldsApart(b.mem, mem, base, Chars(KeyBytes(done, id)), at + 16, at + 24);
    assert KeyBytes(done + [e], id) == KeyBytes(done, id) && Labels(done + [e], id) == Labels(done, id);
    assert New(id, Obj) in done + [e];
    assert FilledObject(b.(mem := mem, filled := b.filled + 1), done + [e], all, id);
  }

  lemma {:induction false} ValuesAdd(m: Cells<Cell>, children: seq<nat>, child: nat)
    requires ValuesHeld(m, children) && Holds(m, EntryAt(|children|) + 16, Pointer(child))
    ensures ValuesHeld(m, children + [child])
  {
    hide Holds, EntryAt, Pointer;
  }

  /** What of the string or name being read is already in memory. */
  ghost predicate Pending(b: Block, c: Control)
    requires c.path != []
  {
    if Top(c).kind == Str then Holds(b.text, 0, c.text) else Holds(b.mem, b.cursor, Chars(c.text))
  }

  /** The second pass in state `c`, having done `done`. */
  ghost predicate Progress(c: Control, blocks: seq<Block>, done: seq<Event>, all: seq<Event>) {
    && |blocks| == c.made && Sits(blocks, done, all)
    && (forall i :: 0 <= i < |c.path| ==> c.path[i].id < |blocks| && SameKind(blocks[c.path[i].id].kind, c.path[i].kind))
    && (forall id :: 0 <= id < |blocks| && blocks[id].kind == Str ==>
          if c.str && c.path != [] && Top(c).id == id then TextOf(done, id) == None else TextOf(done, id).Some?)
    && (c.str ==> c.path != [] && Pending(blocks[Top(c).id], c))
  }

  lemma {:induction false} JoinedHolder(first: bool, s: seq<byte>, c: Control, blocks: seq<Block>, done: seq<Event>, all: seq<Event>)
    requires Proper(first, s, c) && Progress(c, blocks, done, all) && c.path != []
    ensures Top(c).id < |blocks| && SameKind(blocks[Top(c).id].kind, Top(c).kind)
    ensures |c.path| == 1 ==> Joined(c.path) == []
    ensures |c.path| > 1 ==> var below := c.path[|c.path| - 2].id;
              Joined(c.path) == [Child(below, Top(c).id)] && below < |blocks| && Holder(blocks[below].kind)
  {
    hide Sits, Pending;
    assert c.path[|c.path| - 1].id < |blocks|;
  }

  /** The events of a turn find what they need; after the first only a value can be joined. */
  lemma {:induction false} EventsReady(comments: bool, s: seq<byte>, c: Control, d: Control, ev: seq<Event>, rest: seq<Event>,
                                       blocks: seq<Block>, nodes: seq<Node>, done: seq<Event>, all: seq<Event>)
    requires Proper(false, s, c) && Does(c, d, ev) && Progress(c, blocks, done, all) && all == done + ev + rest
    requires Proper(false, s, d) && (d.line || d.block ==> comments) && Run(false, comments, s, d) == Some(rest)
    requires ev != [] && (ev[0].New? ==> |blocks| < |nodes| && (ev[0].kind == Obj ==> Fits(nodes[c.made])))
    ensures Ready(blocks, nodes, ev[0], all) && |ev| <= 2
    ensures |ev| == 2 ==> ev[1].Child? && ev[1].id < |blocks| && Holder(blocks[ev[1].id].kind)
  {
    hide Sits, Run, Nested, Filled, Joined, Popped, Holds;
    if c.path != [] {
      JoinedHolder(false, s, c, blocks, done, all);
      PoppedGone(false, s, c);
    }
    if ev[0].New? {
      NewJoined(c, ev[0].kind, blocks, done, all);
    } else if ev[0].Text? {
      OnlyText(false, comments, s, d, rest, done, ev, Top(c).id, c.text);
    }
  }

  lemma {:induction false} NewJoined(c: Control, k: Kind, blocks: seq<Block>, done: seq<Event>, all: seq<Event>)
    requires Progress(c, blocks, done, all) && (c.path == [] || Holder(Top(c).kind))
    ensures c.path == [] ==> Joined(c.path + [Open(c.made, k, 0)]) == []
    ensures c.path != [] ==> Joined(c.path + [Open(c.made, k, 0)]) == [Child(Top(c).id, c.made)]
                             && Top(c).id < |blocks| && Holder(blocks[Top(c).id].kind)
  {
    hide Sits, Pending;
    if c.path != [] { assert c.path[|c.path| - 1].id < |blocks| && SameKind(blocks[Top(c).id].kind, Top(c).kind); }
  }

  ghost predicate KindsKept(blocks: seq<Block>, blocks': seq<Block>) {
    |blocks| <= |blocks'| && forall id :: 0 <= id < |blocks| ==> blocks'[id].kind == blocks[id].kind
  }

  /** After the events of a turn, with the characters it read in place, the pass is in the
      state the turn leads to. */
  lemma {:induction false} ProgressNext(s: seq<byte>, c: Control, d: Control, ev: seq<Event>, blocks: seq<Block>, blocks': seq<Block>,
                                        done: seq<Event>, all: seq<Event>)
    requires Proper(false, s, c) && Proper(false, s, d) && Does(c, d, ev) && Progress(c, blocks, done, all)
    requires Sits(blocks', done + ev, all) && KindsKept(blocks, blocks') && |blocks'| == d.made
    requires ev != [] && ev[0].New? ==> blocks'[c.made].kind == ev[0].kind
    requires c.str && d.str ==> Pending(blocks'[Top(c).id], d)
    ensures Progress(d, blocks', done + ev, all)
  {
    hide Sits, Holds, Pending;
    PathKinds(c, d, ev, blocks, blocks', done, all);
    TextsNext(s, c, d, ev, blocks, blocks', done, all);
    if d.str && !c.str { EmptyPending(s, d, blocks', done + ev, all); }
  }

  lemma {:induction false} EmptyPending(s: seq<byte>, d: Control, blocks: seq<Block>, done: seq<Event>, all: seq<Event>)
    requires Proper(false, s, d) && d.str && d.text == [] && Sits(blocks, done, all)
    requires Top(d).id < |blocks| && SameKind(blocks[Top(d).id].kind, Top(d).kind)
    ensures Pending(blocks[Top(d).id], d)
  {
    hide Nested, Numbered;
    assert Filled(blocks[Top(d).id], done, all, Top(d).id);
  }

  lemma {:induction false} PathKinds(c: Control, d: Control, ev: seq<Event>, blocks: seq<Block>, blocks': seq<Block>,
                                     done: seq<Event>, all: seq<Event>)
    requires Does(c, d, ev) && Progress(c, blocks, done, all) && KindsKept(blocks, blocks') && |blocks'| == d.made
    requires ev != [] && ev[0].New? ==> blocks'[c.made].kind == ev[0].kind
    ensures forall i :: 0 <= i < |d.path| ==> d.path[i].id < |blocks'| && SameKind(blocks'[d.path[i].id].kind, d.path[i].kind)
  {
    hide Sits, Pending, Joined;
    forall i | 0 <= i < |d.path|
      ensures d.path[i].id < |blocks'| && SameKind(blocks'[d.path[i].id].kind, d.path[i].kind) {
      if i < |c.path| { assert c.path[i].id < |blocks| && SameKind(blocks[c.path[i].id].kind, c.path[i].kind); }
    }
  }

  lemma {:induction false} TextsNext(s: seq<byte>, c: Control, d: Control, ev: seq<Event>, blocks: seq<Block>, blocks': seq<Block>,
                                     done: seq<Event>, all: seq<Event>)
    requires Proper(false, s, c) && Proper(false, s, d) && Does(c, d, ev) && Progress(c, blocks, done, all)
    requires KindsKept(blocks, blocks') && |blocks'| == d.made
    requires ev != [] && ev[0].New? ==> blocks'[c.made].kind == ev[0].kind
    ensures forall id :: 0 <= id < |blocks'| && blocks'[id].kind == Str ==>
              if d.str && d.path != [] && Top(d).id == id then TextOf(done + ev, id) == None else TextOf(done + ev, id).Some?
  {
    hide Holds, Pending, Nested, Filled, Joined, Popped;
    if !c.str && c.path != [] { TopNotText(s, c, blocks, done, all); }
    forall id | 0 <= id < |blocks'| && blocks'[id].kind == Str
      ensures if d.str && d.path != [] && Top(d).id == id then TextOf(done + ev, id) == None else TextOf(done + ev, id).Some? {
      TextAppend(done, ev, id);
      EventText(c, d, ev, id);
      if id == c.made { NoEvents(done, id); }
    }
  }

  lemma {:induction false} TopNotText(s: seq<byte>, c: Control, blocks: seq<Block>, done: seq<Event>, all: seq<Event>)
    requires Proper(false, s, c) && Progress(c, blocks, done, all) && !c.str && c.path != []
    ensures Top(c).id < |blocks| && blocks[Top(c).id].kind != Str
  {
    hide Sits;
    assert c.path[|c.path| - 1].id < |blocks| && SameKind(blocks[Top(c).id].kind, Top(c).kind);
  }

  /** Puts the characters a turn has read into memory. */
  method WriteChars(comments: bool, s: seq<byte>, c: Control, d: Control, blocks: seq<Block>,
                    ghost rest: seq<Event>, ghost done: seq<Event>, ghost all: seq<Event>) returns (blocks': seq<Block>)
    requires Proper(false, s, c) && Progress(c, blocks, done, all) && c.str && d.str && d.path == c.path && c.text <= d.text
    requires Proper(false, s, d) && (d.line || d.block ==> comments) && Run(false, comments, s, d) == Some(rest) && all == done + rest
    requires d.made == c.made
    ensures Sits(blocks', done, all) && KindsKept(blocks, blocks') && |blocks'| == |blocks| && Pending(blocks'[Top(c).id], d)
  {
    hide Run, Filled, Pending, Proper;
    var id := Top(c).id;
    assert c.path[|c.path| - 1].id < |blocks| && Filled(blocks[id], done, all, id);
    var b := WriteBlock(comments, s, c, d, blocks[id], rest, done, all);
    blocks' := blocks[id := b];
  }

  /** The same for the block they go to. */
  method WriteBlock(comments: bool, s: seq<byte>, c: Control, d: Control, b: Block,
                    ghost rest: seq<Event>, ghost done: seq<Event>, ghost all: seq<Event>) returns (b': Block)
    requires c.path != [] && c.str && d.str && d.path == c.path && c.text <= d.text && Filled(b, done, all, Top(c).id)
    requires SameKind(b.kind, Top(c).kind) && Pending(b, c) && (b.kind == Str ==> TextOf(done, Top(c).id) == None)
    requires Proper(false, s, d) && (d.line || d.block ==> comments) && Run(false, comments, s, d) == Some(rest) && all == done + rest
    ensures Filled(b', done, all, Top(c).id) && b'.kind == b.kind && Pending(b', d)
  {
    hide Run, FilledObject, TextOf, Children, KeyBytes, Labels, Holds, Nested, Numbered;
    RoomFor(comments, s, d, b, rest, done, all);
    if Top(c).kind == Str {
      var text := PutMore(b.text, 0, c.text, d.text);
      b' := b.(text := text);
    } else {
      var mem := PutMore(b.mem, b.cursor, Chars(c.text), Chars(d.text));
      BehindApart(b, mem, done, all, Top(c).id);
      b' := b.(mem := mem);
    }
  }

  /** Puts what `longer` has more than `data` behind it. */
  method PutMore<T>(m: Cells<T>, at: nat, data: seq<T>, longer: seq<T>) returns (m': Cells<T>)
    requires data <= longer && at + |longer| <= |m| && Holds(m, at, data)
    ensures |m'| == |m| && Holds(m', at, longer) && forall i :: 0 <= i < at ==> m'[i] == m[i]
  {
    hide Holds;
    m' := Put(m, at + |data|, longer[|data|..]);
    HoldsMore(m, m', at, data, longer);
  }

  lemma {:induction false} HoldsMore<T>(m: Cells<T>, m': Cells<T>, at: nat, data: seq<T>, longer: seq<T>)
    requires data <= longer && at + |longer| <= |m| == |m'| && Holds(m, at, data) && Holds(m', at + |data|, longer[|data|..])
    requires forall i :: 0 <= i < at + |data| ==> m'[i] == m[i]
    ensures Holds(m', at, longer)
  {
    forall i | 0 <= i < |longer| ensures m'[at + i] == Some(longer[i]) {
      if i < |data| { assert m[at + i] == Some(data[i]); }
      else { assert m'[at + |data| + (i - |data|)] == Some(longer[|data|..][i - |data|]); }
    }
  }

  /** The memory of a value has room for all that is yet to be read of its text or name. */
  lemma {:induction false} RoomFor(comments: bool, s: seq<byte>, d: Control, b: Block, rest: seq<Event>, done: seq<Event>, all: seq<Event>)
    requires Proper(false, s, d) && (d.line || d.block ==> comments) && d.str && Run(false, comments, s, d) == Some(rest)
    requires all == done + rest && Filled(b, done, all, Top(d).id) && SameKind(b.kind, Top(d).kind)
    ensures Top(d).kind == Str ==> |d.text| < |b.text|
    ensures Top(d).kind == Obj ==> b.cursor + |d.text| < |b.mem|
  {
    hide Run;
    var id := Top(d).id;
    var w := TextComes(false, comments, s, d, rest);
    var e := rest[0];
    assert rest == [e] + rest[1..];
    if Top(d).kind == Str {
      TextAppend(done, rest, id);
    } else {
      KeyBytesAppend(done, rest, id);
      KeyBytesAppend([e], rest[1..], id);
      assert [] + [e] == [e];
      Adds([], e, id);
    }
  }

  /** Everything a turn does to memory. */
  method TakeTurn(comments: bool, s: seq<byte>, nodes: seq<Node>, c: Control, d: Control, ev: seq<Event>, blocks: seq<Block>,
                  ghost rest: seq<Event>, ghost done: seq<Event>, ghost all: seq<Event>) returns (blocks': seq<Block>)
    requires Proper(false, s, c) && Progress(c, blocks, done, all) && Does(c, d, ev)
    requires Proper(false, s, d) && (d.line || d.block ==> comments) && Run(false, comments, s, d) == Some(rest)
    requires all == done + ev + rest && Matched(all)
    requires ev != [] && ev[0].New? ==> c.made < |nodes| && (ev[0].kind == Obj ==> Fits(nodes[c.made]))
    requires forall id :: 0 <= id < |nodes| ==> Counted(nodes[id], all, id)
    ensures Progress(d, blocks', done + ev, all)
  {
    hide Run, Sits, Counted, Pending, Ready, Progress, Does, KindsKept, Proper, Fits, Matched;
    if ev == [] {
      blocks' := TakeQuietTurn(comments, s, c, d, blocks, rest, done, all);
    } else {
      blocks' := TakeEvents(comments, s, nodes, c, d, ev, blocks, rest, done, all);
    }
    ProgressNext(s, c, d, ev, blocks, blocks', done, all);
  }

  /** A turn without events may still write characters. */
  method TakeQuietTurn(comments: bool, s: seq<byte>, c: Control, d: Control, blocks: seq<Block>,
                       ghost rest: seq<Event>, ghost done: seq<Event>, ghost all: seq<Event>) returns (blocks': seq<Block>)
    requires Proper(false, s, c) && Progress(c, blocks, done, all) && Does(c, d, [])
    requires Proper(false, s, d) && (d.line || d.block ==> comments) && Run(false, comments, s, d) == Some(rest) && all == done + [] + rest
    ensures Sits(blocks', done + [], all) && KindsKept(blocks, blocks') && |blocks'| == d.made
    ensures c.str && d.str ==> c.path != [] && Top(c).id < |blocks'| && Pending(blocks'[Top(c).id], d)
  {
    hide Run, Sits, Pending;
    DoesMeans(c, d, []);
    assert done + [] == done;
    blocks' := blocks;
    KindsSame(blocks);
    if c.str { blocks' := WriteChars(comments, s, c, d, blocks, rest, done, all); }
  }

  /** A turn with one event, or two of which the second joins a value to its parent. */
  method TakeEvents(comments: bool, s: seq<byte>, nodes: seq<Node>, c: Control, d: Control, ev: seq<Event>, blocks: seq<Block>,
                    ghost rest: seq<Event>, ghost done: seq<Event>, ghost all: seq<Event>) returns (blocks': seq<Block>)
    requires Proper(false, s, c) && Progress(c, blocks, done, all) && Does(c, d, ev) && ev != []
    requires Proper(false, s, d) && (d.line || d.block ==> comments) && Run(false, comments, s, d) == Some(rest)
    requires all == done + ev + rest && Matched(all)
    requires ev[0].New? ==> c.made < |nodes| && (ev[0].kind == Obj ==> Fits(nodes[c.made]))
    requires forall id :: 0 <= id < |nodes| ==> Counted(nodes[id], all, id)
    ensures Sits(blocks', done + ev, all) && KindsKept(blocks, blocks') && |blocks'| == d.made && !(c.str && d.str)
    ensures ev[0].New? ==> c.made < |blocks'| && blocks'[c.made].kind == ev[0].kind
  {
    hide Run, Sits, Counted, Pending, Ready, Does, Proper, Fits, Matched;
    DoesMeans(c, d, ev);
    EventsReady(comments, s, c, d, ev, rest, blocks, nodes, done, all);
    ghost var tail := ev[1..];
    assert ev == [ev[0]] + tail && all == done + [ev[0]] + (tail + rest);
    blocks' := Perform(blocks, nodes, ev[0], done, tail + rest, all);
    if |ev| == 2 {
      ghost var one := done + [ev[0]];
      assert tail == [ev[1]] && all == one + [ev[1]] + rest && one + [ev[1]] == done + ev;
      JoinReady(blocks, blocks', nodes, ev[1], all);
      blocks' := Perform(blocks', nodes, ev[1], one, rest, all);
    } else {
      assert done + [ev[0]] == done + ev;
    }
  }

  lemma {:induction false} KindsSame(blocks: seq<Block>)
    ensures KindsKept(blocks, blocks)
  {}

  lemma {:induction false} JoinReady(blocks: seq<Block>, blocks': seq<Block>, nodes: seq<Node>, e: Event, all: seq<Event>)
    requires |blocks| <= |blocks'| && (forall id :: 0 <= id < |blocks| ==> blocks'[id].kind == blocks[id].kind)
    requires e.Child? && e.id < |blocks| && Holder(blocks[e.id].kind)
    ensures Ready(blocks', nodes, e, all)
  {}

  /** A value whose memory is completely written, with nothing missing and nothing over: an
      object's names lie behind its entries, and every entry leads to its name and value. */
  ghost predicate Finished(b: Block, all: seq<Event>, id: nat) {
    && New(id, b.kind) in all
    && (b.kind == Arr ==> b.filled == |b.values| == |Children(all, id)| && Holds(b.values, 0, Children(all, id)))
    && (b.kind == Obj ==>
          var base := EntryAt(|Children(all, id)|);
          && b.filled == |Children(all, id)| == |Labels(all, id)| && b.cursor == |b.mem| == base + |KeyBytes(all, id)|
          && Holds(b.mem, base, Chars(KeyBytes(all, id)))
          && HeadsHeld(b.mem, base, Labels(all, id)) && ValuesHeld(b.mem, Children(all, id)))
    && (b.kind == Str ==> TextOf(all, id).Some? && |b.text| == |TextOf(all, id).value| + 1 && Holds(b.text, 0, TextOf(all, id).value + [0]))
  }

  lemma {:induction false} AllCounted(all: seq<Event>)
    requires InOrder(all, 0)
    ensures var nodes := CountAll([], all); forall id :: 0 <= id < |nodes| ==> Counted(nodes[id], all, id)
  {
    assert [] + all == all;
    CountsRight([], all);
  }

  lemma {:induction false} StartProgress(all: seq<Event>)
    ensures Progress(START, [], [], all) && |CountAll([], [])| == 0
  {}

  lemma {:induction false} AllFinished(c: Control, blocks: seq<Block>, all: seq<Event>)
    requires Progress(c, blocks, all, all) && !c.str && Matched(all)
    ensures |blocks| == c.made && forall id :: 0 <= id < |blocks| ==> Finished(blocks[id], all, id)
  {
    hide HeadsHeld, ValuesHeld, Holds, Labels, Children, KeyBytes, TextOf, Turns, Lead, Pending;
    forall id | 0 <= id < |blocks| ensures Finished(blocks[id], all, id) {
      assert Filled(blocks[id], all, all, id);
      LeadIs(all, id);
      assert blocks[id].kind == Obj ==> Object(all, id);
    }
  }

  // ----- objects that are too large -----

  /** The entries of object `id` take more bytes than an int can say. */
  ghost predicate TooLarge(t: seq<Event>, id: nat) {
    Object(t, id) && EntryAt(|Children(t, id)|) > 2147483647
  }

  /** The first such object. */
  ghost predicate FirstTooLarge(t: seq<Event>, id: nat) {
    TooLarge(t, id) && forall i :: 0 <= i < id ==> !TooLarge(t, i)
  }

  /** How reading ends. A text is refused, or built; or the block of an object is asked for with a
      negative size, which as an unsigned number is more than there is; or it is so small that
      the names do not lie behind the entries, and what is written then is not modelled here. */
  datatype Reading = Refused | Built(blocks: seq<Block>) | Exhausted(id: nat) | Misplaced(id: nat)

  /** How reading a text with trace `all` should end. */
  ghost predicate Outcome(r: Reading, all: seq<Event>) {
    match r
    case Refused => false
    case Built(blocks) =>
      && |blocks| == News(all) && (forall id :: 0 <= id < |blocks| ==> Finished(blocks[id], all, id))
      && forall id: nat :: !TooLarge(all, id)
    case Exhausted(id) => FirstTooLarge(all, id) && NamesAt(|Children(all, id)|) + |KeyBytes(all, id)| < 0
    case Misplaced(id) => FirstTooLarge(all, id) && NamesAt(|Children(all, id)|) + |KeyBytes(all, id)| >= 0
  }

  lemma {:induction false} FitsIff(n: Node)
    ensures Fits(n) <==> EntryAt(n.items) <= 2147483647
  {}

  /** Every value is made once. */
  lemma {:induction false} MadeOnce(t: seq<Event>, made: nat, id: nat)
    requires InOrder(t, made)
    ensures forall k, l :: New(id, k) in t && New(id, l) in t ==> k == l
    ensures forall k :: New(id, k) in t ==> made <= id < made + News(t)
    decreases |t|
  {
    if t != [] {
      assert t == [t[0]] + t[1..];
      MadeOnce(t[1..], if t[0].New? then made + 1 else made, id);
      NewsAppend([t[0]], t[1..]);
      assert [t[0]][..0] == [] && News([t[0]]) == if t[0].New? then 1 else 0;
    }
  }

  /** What is made next is no object that is too large. */
  lemma {:induction false} NextFits(done: seq<Event>, ev: seq<Event>, rest: seq<Event>, all: seq<Event>, n: Node, made: nat)
    requires all == done + ev + rest && InOrder(all, 0) && ev != [] && ev[0].New? && ev[0].id == made && Counted(n, all, made)
    ensures TooLarge(all, made) <==> ev[0].kind == Obj && !Fits(n)
    ensures n.items == |Children(all, made)| && n.keyBytes == |KeyBytes(all, made)|
  {
    hide Children, KeyBytes, TextOf, InOrder;
    MadeOnce(all, 0, made);
    assert all[|done|] == ev[0];
    FitsIff(n);
  }

  /** Asks for the memory of the value made next; unless it is an object that is too large,
      there is room. */
  method Ask(n: Node, made: nat, ghost done: seq<Event>, ev: seq<Event>, ghost rest: seq<Event>, ghost all: seq<Event>) returns (stop: Option<Reading>)
    requires all == done + ev + rest && InOrder(all, 0) && ev != [] && ev[0].New? && ev[0].id == made && Counted(n, all, made)
    requires forall id :: 0 <= id < made ==> !TooLarge(all, id)
    ensures if stop.None? then !TooLarge(all, made) && (ev[0].kind == Obj ==> Fits(n)) else Outcome(stop.value, all)
  {
    hide TooLarge, Fits, Counted, InOrder, NamesAt, Children, KeyBytes;
    NextFits(done, ev, rest, all, n, made);
    if ev[0].kind != Obj || Fits(n) { return None; }
    stop := Some(if NamesAt(n.items) + n.keyBytes < 0 then Exhausted(made) else Misplaced(made));
  }

  /** What is known before the second pass. */
  lemma {:induction false} SecondPass(comments: bool, s: seq<byte>, all: seq<Event>)
    requires Proper(true, s, START) && Run(true, comments, s, START) == Some(all)
    ensures Proper(false, s, START) && Run(false, comments, s, START) == Some(all)
    ensures Matched(all) && InOrder(all, 0) && Progress(START, [], [], all) && |CountAll([], [])| == 0
    ensures var nodes := CountAll([], all); |nodes| == News(all) && forall id :: 0 <= id < |nodes| ==> Counted(nodes[id], all, id)
  {
    hide Step, Progress, Counted, CountAll, Matched, InOrder, News;
    PassesAgree(comments, s, START);
    RunInOrder(true, comments, s, START, all);
    NamesAndValues(comments, s, all);
    AllCounted(all);
    CountSize(all);
    StartProgress(all);
  }

  lemma {:induction false} RunTurn(comments: bool, s: seq<byte>, c: Control)
    requires Proper(false, s, c) && (c.line || c.block ==> comments) && Run(false, comments, s, c).Some?
    ensures var t, r := Step(false, comments, s, c), Run(false, comments, s, c).value;
            && !t.Rejected? && (t.Accepted? ==> r == [])
            && (t.More? ==> Proper(false, s, t.c) && (t.c.line || t.c.block ==> comments) && Run(false, comments, s, t.c).Some?
                            && r == t.ev + Run(false, comments, s, t.c).value)
  {
    hide Step;
    StepProper(false, comments, s, c);
  }

  /** Fills in what the first pass counted. Given its counts, the second pass accepts, writes
      only inside the memory it allocates, and writes all of it, unless an object is too
      large. */
  method FillingPass(comments: bool, s: seq<byte>, nodes: seq<Node>) returns (r: Reading)
    requires Proper(true, s, START) && Run(true, comments, s, START).Some?
    requires nodes == CountAll([], Run(true, comments, s, START).value)
    ensures Outcome(r, Run(true, comments, s, START).value)
  {
    hide Step, Does, Progress, Counted, CountAll, Outcome, TooLarge, Fits, Matched, InOrder, Proper, Rank, News, Run;
    ghost var all := Run(true, comments, s, START).value;
    SecondPass(comments, s, all);
    var c := START;
    var blocks := [];
    ghost var done: seq<Event> := [];
    assert [] + all == all;
    while true
      invariant Proper(false, s, c) && (c.line || c.block ==> comments) && Progress(c, blocks, done, all)
      invariant Run(false, comments, s, c).Some? && all == done + Run(false, comments, s, c).value
      invariant |CountAll([], done)| == c.made && forall id :: 0 <= id < c.made ==> !TooLarge(all, id)
      decreases |s| - c.ptr, Rank(c)
    {
      StepProper(false, comments, s, c);
      StepDoes(false, comments, s, c);
      RunTurn(comments, s, c);
      var t := Step(false, comments, s, c);
      if t.Accepted? { break; }
      ghost var rest := Run(false, comments, s, t.c).value;
      assert all == done + t.ev + rest;
      DoesMeans(c, t.c, t.ev);
      MadeCounts(c, t.c, t.ev, done, rest);
      if t.ev != [] && t.ev[0].New? {
        var stop := Ask(nodes[c.made], c.made, done, t.ev, rest, all);
        if stop.Some? { return stop.value; }
      }
      blocks := TakeTurn(comments, s, nodes, c, t.c, t.ev, blocks, rest, done, all);
      done := done + t.ev;
      c := t.c;
    }
    assert done + [] == done && done == all;
    NotInString(false, comments, s, c);
    EndsBuilt(c, blocks, all);
    r := Built(blocks);
  }

  lemma {:induction false} EndsBuilt(c: Control, blocks: seq<Block>, all: seq<Event>)
    requires Progress(c, blocks, all, all) && !c.str && Matched(all) && InOrder(all, 0) && News(all) == c.made
    requires forall id :: 0 <= id < c.made ==> !TooLarge(all, id)
    ensures Outcome(Built(blocks), all)
  {
    hide Progress, Matched, InOrder, Finished;
    AllFinished(c, blocks, all);
    forall id: nat ensures !TooLarge(all, id) { MadeOnce(all, 0, id); }
  }

  /** The text without a leading byte-order mark. */
  function Unmarked(json: seq<byte>): seq<byte> {
    if |json| >= 3 && json[..3] == [0xEF, 0xBB, 0xBF] then json[3..] else json
  }

  /** Reading a whole text: it is refused exactly when the first pass rejects it; otherwise every
      value's memory is exactly as large as what the text puts into it, unless an object is
      too large. */
  method Parse(comments: bool, json: seq<byte>) returns (r: Reading)
    ensures Proper(true, Unmarked(json), START)
    ensures var all := Run(true, comments, Unmarked(json), START);
            if all.None? then r == Refused else Outcome(r, all.value)
  {
    var s := Unmarked(json);
    var nodes := SizingPass(comments, s);
    if nodes.None? { return Refused; }
    r := FillingPass(comments, s, nodes.value);
  }
}
