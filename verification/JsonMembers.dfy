/** The members of an object: in every accepted text each has its name first and then its
    value, although the reader keeps no record of whose turn it is but a flag. */
module JsonMembers {
  import opened Basics
  import opened Json
  import opened JsonTrace

  /** How many more names than values the trace has put into `id`. */
  function Lead(t: seq<Event>, id: nat): int {
    if t == [] then 0 else
      var rest := Lead(t[..|t| - 1], id);
      var e := t[|t| - 1];
      if e.id != id then rest else if e.Key? then rest + 1 else if e.Child? then rest - 1 else rest
  }

  /** A name comes when none is waiting for its value, a value when one is. */
  ghost predicate Turns(t: seq<Event>, id: nat) {
    forall i :: 0 <= i < |t| && t[i].id == id ==>
      (t[i].Key? ==> Lead(t[..i], id) == 0) && (t[i].Child? ==> Lead(t[..i], id) == 1)
  }

  ghost predicate Object(t: seq<Event>, id: nat) { New(id, Obj) in t }

  lemma {:induction false} LeadAdds(done: seq<Event>, e: Event, id: nat)
    ensures Lead(done + [e], id) == Lead(done, id) + if e.id != id then 0 else if e.Key? then 1 else if e.Child? then -1 else 0
  {
    assert (done + [e])[..|done|] == done;
  }

  lemma {:induction false} TurnsAdds(done: seq<Event>, e: Event, id: nat)
    requires Turns(done, id)
    requires e.id == id ==> (e.Key? ==> Lead(done, id) == 0) && (e.Child? ==> Lead(done, id) == 1)
    ensures Turns(done + [e], id)
  {
    var t := done + [e];
    forall i | 0 <= i < |t| && t[i].id == id
      ensures (t[i].Key? ==> Lead(t[..i], id) == 0) && (t[i].Child? ==> Lead(t[..i], id) == 1) {
      assert t[..i] == done[..i];
      assert i == |done| ==> done[..i] == done;
    }
  }

  lemma {:induction false} NoLead(t: seq<Event>, id: nat)
    requires forall i :: 0 <= i < |t| ==> t[i].id != id
    ensures Lead(t, id) == 0 && Turns(t, id)
  {
    if t != [] { NoLead(t[..|t| - 1], id); }
  }

  // ----- the flag -----

  /** After a turn that leaves an object on top, the reader seeks a value exactly if a name has
      just been read or it was seeking before; a value is made only when one is sought, and
      an object is closed only when none is. */
  ghost predicate Seeks(c: Control, d: Control, ev: seq<Event>) {
    && (ev != [] && ev[0].New? ==> c.seek)
    && (d.path != [] && Top(d).kind == Obj ==>
          d.seek == if ev == [] && |d.path| == |c.path| then c.seek else ev != [] && ev[0].Key?)
    && (|d.path| < |c.path| && Top(c).kind == Obj ==> !c.seek)
  }

  lemma {:induction false} FinishSeeks(c: Control)
    requires c.path != [] && !c.seek
    ensures Finish(c).More? ==> |Finish(c).c.path| == |c.path| - 1
    ensures var t := Finish(c); t.More? ==> (t.ev != [] ==> t.ev[0].Child?) && (t.c.path != [] && Top(t.c).kind == Obj ==> !t.c.seek)
  {}

  lemma {:induction false} StepSeeks(first: bool, comments: bool, s: seq<byte>, c: Control)
    requires Proper(first, s, c) && (c.line || c.block ==> comments)
    ensures var t := Step(first, comments, s, c); t.More? ==> Seeks(c, t.c, t.ev)
  {
    hide StringTurn, SeekTurn, ObjectTurn, InNumberTurn, CommentTurn, SlashTurn, DoneTurn, Proper, Seeks;
    if c.str { StringSeeks(first, s, c); }
    else if comments && (c.line || c.block) { CommentSeeks(s, c); }
    else if comments && At(s, c.ptr) == SLASH { SlashSeeks(first, s, c); }
    else if c.done { DoneSeeks(s, c); }
    else if c.seek { SeekSeeks(first, s, c); }
    else { MemberSeeks(first, s, c); }
  }

  lemma {:induction false} StringSeeks(first: bool, s: seq<byte>, c: Control)
    requires Proper(first, s, c) && c.str
    ensures var t := StringTurn(s, c); t.More? ==> Seeks(c, t.c, t.ev)
  {
    hide Escape, Finish, Nested, Numbered;
    FinishSeeks(c.(ptr := c.ptr + 1, str := false));
  }

  lemma {:induction false} SameSeeks(c: Control, d: Control)
    requires d.path == c.path && d.seek == c.seek
    ensures Seeks(c, d, [])
  {}

  lemma {:induction false} CommentSeeks(s: seq<byte>, c: Control)
    requires c.line || c.block
    ensures var t := CommentTurn(s, c); t.More? ==> Seeks(c, t.c, t.ev)
  {
    hide Seeks;
    var t := CommentTurn(s, c);
    if t.More? { SameSeeks(c, t.c); }
  }

  lemma {:induction false} SlashSeeks(first: bool, s: seq<byte>, c: Control)
    requires Proper(first, s, c) && !c.str
    ensures c.path != [] || c.seek || c.done
    ensures var t := SlashTurn(s, c); t.More? ==> Seeks(c, t.c, t.ev)
  {
    hide Seeks, Nested, Numbered;
    var t := SlashTurn(s, c);
    if t.More? { SameSeeks(c, t.c); }
  }

  lemma {:induction false} DoneSeeks(s: seq<byte>, c: Control)
    ensures var t := DoneTurn(s, c); t.More? ==> Seeks(c, t.c, t.ev)
  {
    hide Seeks;
    var t := DoneTurn(s, c);
    if t.More? { SameSeeks(c, t.c); }
  }

  lemma {:induction false} MemberSeeks(first: bool, s: seq<byte>, c: Control)
    requires Proper(first, s, c) && !c.str && !c.seek && !c.done
    ensures c.path != [] && (Top(c).kind == Obj || Top(c).kind.Number?)
    ensures Top(c).kind == Obj && ObjectTurn(s, c).More? ==> Seeks(c, ObjectTurn(s, c).c, ObjectTurn(s, c).ev)
    ensures Top(c).kind.Number? && InNumberTurn(s, c).More? ==> Seeks(c, InNumberTurn(s, c).c, InNumberTurn(s, c).ev)
  {
    hide Finish, Nested, Numbered, DigitTurn;
    FinishSeeks(c);
    FinishSeeks(c.(ptr := c.ptr + 1, needComma := false));
  }

  lemma {:induction false} SeekSeeks(first: bool, s: seq<byte>, c: Control)
    requires Proper(first, s, c) && c.seek && !c.str
    ensures var t := SeekTurn(first, s, c); t.More? ==> Seeks(c, t.c, t.ev)
  {
    hide Finish, ValueTurn, Nested, Numbered, Seeks;
    var t := SeekTurn(first, s, c);
    if At(s, c.ptr) == RBRACKET {
      if t.More? { ArraySeeks(c.(ptr := c.ptr + 1, needComma := false, seek := false), c); }
    } else if IsSpace(At(s, c.ptr)) || c.needComma || c.needColon { if t.More? { SameSeeks(c, t.c); } }
    else { ValueSeeks(first, s, c); }
  }

  lemma {:induction false} ArraySeeks(d: Control, c: Control)
    requires c.path != [] && d.path == c.path && Top(c).kind == Arr && !d.seek
    ensures Finish(d).More? ==> Seeks(c, Finish(d).c, Finish(d).ev)
  {
    hide Finish;
    FinishSeeks(d);
  }

  lemma {:induction false} ValueSeeks(first: bool, s: seq<byte>, c: Control)
    requires Proper(first, s, c) && c.seek && !c.str
    ensures var t := ValueTurn(first, s, c.(seek := false)); t.More? ==> Seeks(c, t.c, t.ev)
  {
    hide Nested, Numbered, ScalarTurn, NumberTurn, Seeks;
    var b, t := At(s, c.ptr), ValueTurn(first, s, c.(seek := false));
    if b == LBRACE { OpensSeeks(c, t.c, Obj); }
    else if b == LBRACKET { OpensSeeks(c, t.c, Arr); }
    else if b == QUOTE { OpensSeeks(c, t.c, Str); }
    else if b == 116 { ScalarSeeks(s, c, TRUE); }
    else if b == 102 { ScalarSeeks(s, c, FALSE); }
    else if b == 110 { ScalarSeeks(s, c, NULL); }
    else if t.More? { NumberSeeks(first, s, c); }
  }

  lemma {:induction false} OpensSeeks(c: Control, d: Control, k: Kind)
    requires c.seek && d.path == c.path + [Open(c.made, k, 0)] && (k == Obj ==> !d.seek)
    ensures Seeks(c, d, [New(c.made, k)])
  {}

  lemma {:induction false} ScalarSeeks(s: seq<byte>, c: Control, w: seq<byte>)
    requires c.seek
    ensures var t := ScalarTurn(s, c.(seek := false), w); t.More? ==> Seeks(c, t.c, t.ev)
  {
    hide Finish, Word;
    if Word(s, c.ptr, w) { FinishSeeks(Create(c.(seek := false), Scalar).(ptr := c.ptr + |w|)); }
  }

  lemma {:induction false} NumberSeeks(first: bool, s: seq<byte>, c: Control)
    requires c.seek && c.ptr < |s|
    ensures var t := NumberTurn(first, s, c.(seek := false)); t.More? ==> Seeks(c, t.c, t.ev)
  {
    hide Finish;
    FinishSeeks(Create(c.(seek := false), Number(NEW_NUMBER)).(ptr := SkipNumber(s, c.ptr)));
  }

  // ----- every member has a name and a value -----

  /** Whether a name of `id` is waiting for its value. */
  ghost function Waiting(c: Control, id: nat): int {
    if c.path != [] && Top(c).id == id then (if c.seek then 1 else 0) else if id in Ids(c.path) then 1 else 0
  }

  ghost predicate Even(c: Control, done: seq<Event>) {
    && (forall i :: 0 <= i < |done| ==> done[i].id < c.made)
    && (forall i :: 0 <= i < |c.path| && Object(done, c.path[i].id) ==> c.path[i].kind == Obj)
    && (forall id :: Object(done, id) ==> Lead(done, id) == Waiting(c, id) && Turns(done, id))
  }

  /** What is to be shown of one object after a turn. */
  ghost predicate EvenAt(d: Control, t: seq<Event>, id: nat) {
    Lead(t, id) == Waiting(d, id) && Turns(t, id)
  }

  lemma {:induction false} TurnEven(first: bool, s: seq<byte>, c: Control, d: Control, ev: seq<Event>, done: seq<Event>)
    requires Proper(first, s, c) && Does(c, d, ev) && Seeks(c, d, ev) && Even(c, done)
    ensures Even(d, done + ev)
  {
    hide Does, Seeks, Lead, Turns, Waiting, Proper;
    TurnMade(first, s, c, d, ev, done);
    TurnKinds(first, s, c, d, ev, done);
    forall id | Object(done + ev, id) ensures EvenAt(d, done + ev, id) {
      ObjectEven(first, s, c, d, ev, done, id);
    }
  }

  lemma {:induction false} ObjectEven(first: bool, s: seq<byte>, c: Control, d: Control, ev: seq<Event>, done: seq<Event>, id: nat)
    requires Proper(first, s, c) && Does(c, d, ev) && Seeks(c, d, ev) && Even(c, done) && Object(done + ev, id)
    ensures EvenAt(d, done + ev, id)
  {
    hide Seeks, EvenAt, Even, Joined, Popped, Proper;
    if ev == [] && SameShape(d.path, c.path) { QuietEven(c, d, done, id); }
    else if ev != [] && ev[0].Key? { NameEven(first, s, c, d, ev, done, id); }
    else if k :| ev == [New(c.made, k)] && d.path == c.path + [Open(c.made, k, 0)] { OpenEven(first, s, c, d, k, done, id); }
    else if k :| ev == [New(c.made, k)] + Joined(c.path + [Open(c.made, k, 0)]) && d.path == Popped(c.path + [Open(c.made, k, 0)]) {
      PassEven(first, s, c, d, k, ev, done, id);
    } else { CloseEven(first, s, c, d, ev, done, id); }
  }

  lemma {:induction false} TurnMade(first: bool, s: seq<byte>, c: Control, d: Control, ev: seq<Event>, done: seq<Event>)
    requires Proper(first, s, c) && Does(c, d, ev) && forall i :: 0 <= i < |done| ==> done[i].id < c.made
    ensures forall i :: 0 <= i < |done + ev| ==> (done + ev)[i].id < d.made
  {
    hide Does;
    DoesLocal(c, d, ev);
    IdsMade(first, s, c);
  }

  /** An event on a value of its own, or on an object whose turn it is. */
  lemma {:induction false} OneEven(done: seq<Event>, e: Event, id: nat)
    requires Turns(done, id) && (e.id == id ==> (e.Key? ==> Lead(done, id) == 0) && (e.Child? ==> Lead(done, id) == 1))
    ensures Turns(done + [e], id)
    ensures Lead(done + [e], id) == Lead(done, id) + if e.id != id then 0 else if e.Key? then 1 else if e.Child? then -1 else 0
  {
    LeadAdds(done, e, id);
    TurnsAdds(done, e, id);
  }

  lemma {:induction false} TurnKinds(first: bool, s: seq<byte>, c: Control, d: Control, ev: seq<Event>, done: seq<Event>)
    requires Proper(first, s, c) && Does(c, d, ev)
    requires forall i :: 0 <= i < |done| ==> done[i].id < c.made
    requires forall i :: 0 <= i < |c.path| && Object(done, c.path[i].id) ==> c.path[i].kind == Obj
    ensures forall i :: 0 <= i < |d.path| && Object(done + ev, d.path[i].id) ==> d.path[i].kind == Obj
  {
    hide Nested;
    forall i | 0 <= i < |d.path| && Object(done + ev, d.path[i].id) ensures d.path[i].kind == Obj {
      var id := d.path[i].id;
      if i < |c.path| { assert c.path[i].id == id < c.made && New(id, Obj) !in ev; }
    }
  }

  lemma {:induction false} QuietEven(c: Control, d: Control, done: seq<Event>, id: nat)
    requires SameShape(d.path, c.path) && Seeks(c, d, []) && Even(c, done) && Object(done + [], id)
    ensures EvenAt(d, done + [], id)
  {
    hide Lead, Turns;
    assert done + [] == done;
    assert Ids(d.path) == Ids(c.path);
  }

  lemma {:induction false} NameEven(first: bool, s: seq<byte>, c: Control, d: Control, ev: seq<Event>, done: seq<Event>, id: nat)
    requires Proper(first, s, c) && Does(c, d, ev) && Seeks(c, d, ev) && Even(c, done) && Object(done + ev, id)
    requires ev != [] && ev[0].Key?
    ensures EvenAt(d, done + ev, id)
  {
    hide Lead, Turns, Nested, Numbered, Popped;
    assert ev == [Key(Top(c).id, c.text)] && Object(done, id);
    OneEven(done, ev[0], id);
  }

  /** A value that the turn makes has no members yet. */
  lemma {:induction false} FreshEven(first: bool, s: seq<byte>, c: Control, k: Kind, done: seq<Event>, id: nat)
    requires Proper(first, s, c) && Even(c, done) && (Object(done, id) || id == c.made)
    ensures Turns(done + [New(c.made, k)], id) && Lead(done + [New(c.made, k)], id) == Lead(done, id)
    ensures Lead(done, id) == if id == c.made then 0 else Waiting(c, id)
  {
    hide Lead, Turns, Waiting;
    if id == c.made { NoLead(done, id); }
    OneEven(done, New(c.made, k), id);
  }

  lemma {:induction false} OpenEven(first: bool, s: seq<byte>, c: Control, d: Control, k: Kind, done: seq<Event>, id: nat)
    requires var ev := [New(c.made, k)]; Proper(first, s, c) && Seeks(c, d, ev) && Even(c, done) && Object(done + ev, id)
    requires d.path == c.path + [Open(c.made, k, 0)]
    ensures EvenAt(d, done + [New(c.made, k)], id)
  {
    hide Lead, Turns, Nested;
    assert Ids(d.path) == Ids(c.path) + [c.made];
    assert New(id, Obj) in done || New(id, Obj) in [New(c.made, k)];
    FreshEven(first, s, c, k, done, id);
  }

  lemma {:induction false} PassEven(first: bool, s: seq<byte>, c: Control, d: Control, k: Kind, ev: seq<Event>, done: seq<Event>, id: nat)
    requires Proper(first, s, c) && Seeks(c, d, ev) && Even(c, done) && Object(done + ev, id)
    requires ev == [New(c.made, k)] + Joined(c.path + [Open(c.made, k, 0)]) && d.path == Popped(c.path + [Open(c.made, k, 0)])
    ensures EvenAt(d, done + ev, id)
  {
    hide Lead, Turns, Nested;
    assert Ids(d.path) == Ids(c.path);
    assert New(id, Obj) in done || New(id, Obj) in ev;
    FreshEven(first, s, c, k, done, id);
    var one := done + [New(c.made, k)];
    if c.path == [] {
      assert one == done + ev;
    } else {
      IdsMade(first, s, c);
      PassedEven(c, d, one, id);
      assert one + [Child(Top(c).id, c.made)] == done + ev;
    }
  }

  lemma {:induction false} PassedEven(c: Control, d: Control, one: seq<Event>, id: nat)
    requires c.path != [] && Ids(d.path) == Ids(c.path) && (Top(c).id == id ==> c.seek && !d.seek)
    requires EvenAt(c, one, id)
    ensures EvenAt(d, one + [Child(Top(c).id, c.made)], id)
  {
    hide Lead, Turns;
    OneEven(one, Child(Top(c).id, c.made), id);
    assert Ids(c.path)[|c.path| - 1] == Top(c).id && Ids(d.path)[|d.path| - 1] == Top(d).id;
  }

  lemma {:induction false} CloseEven(first: bool, s: seq<byte>, c: Control, d: Control, ev: seq<Event>, done: seq<Event>, id: nat)
    requires Proper(first, s, c) && Seeks(c, d, ev) && Even(c, done) && Object(done + ev, id)
    requires c.path != [] && d.path == Popped(c.path) && (ev == Joined(c.path) || ev == [Text(Top(c).id, c.text)] + Joined(c.path))
    ensures EvenAt(d, done + ev, id)
  {
    hide Lead, Turns, Nested;
    assert Object(done, id);
    PoppedGone(first, s, c);
    var one := if ev == Joined(c.path) then done else done + [Text(Top(c).id, c.text)];
    OneEven(done, Text(Top(c).id, c.text), id);
    assert done + ev == one + Joined(c.path);
    ClosedEven(first, s, c, d, one, id);
  }

  lemma {:induction false} ClosedEven(first: bool, s: seq<byte>, c: Control, d: Control, one: seq<Event>, id: nat)
    requires Proper(first, s, c) && c.path != [] && d.path == Popped(c.path) && EvenAt(c, one, id)
    requires Top(c).id == id ==> !c.seek
    requires d.path != [] && Top(d).id == id ==> !d.seek
    ensures EvenAt(d, one + Joined(c.path), id)
  {
    hide Lead, Turns, Nested;
    PoppedGone(first, s, c);
    PoppedIds(c.path);
    var n := |c.path|;
    if n == 1 {
      assert one + [] == one;
    } else {
      assert Ids(d.path) == Ids(c.path)[..n - 1];
      assert Ids(c.path)[n - 2] == c.path[n - 2].id < Top(c).id;
      assert Ids(c.path) == Ids(d.path) + [Top(c).id];
      OneEven(one, Child(c.path[n - 2].id, Top(c).id), id);
    }
  }

  lemma {:induction false} RunEven(first: bool, comments: bool, s: seq<byte>, c: Control, done: seq<Event>, rest: seq<Event>)
    requires Proper(first, s, c) && (c.line || c.block ==> comments) && Run(first, comments, s, c) == Some(rest) && Even(c, done)
    ensures forall id :: Object(done + rest, id) ==> Lead(done + rest, id) == 0 && Turns(done + rest, id)
    decreases |s| - c.ptr, Rank(c)
  {
    hide Step, Even, Does, Seeks, Turns, Lead;
    StepProper(first, comments, s, c);
    StepDoes(first, comments, s, c);
    StepSeeks(first, comments, s, c);
    var u := Step(first, comments, s, c);
    if u.More? {
      TurnEven(first, s, c, u.c, u.ev, done);
      var later := Run(first, comments, s, u.c).value;
      RunEven(first, comments, s, u.c, done + u.ev, later);
      assert done + rest == (done + u.ev) + later;
    } else {
      assert done + rest == done;
      EvenEnds(first, comments, s, c, done);
    }
  }

  lemma {:induction false} EvenEnds(first: bool, comments: bool, s: seq<byte>, c: Control, done: seq<Event>)
    requires Proper(first, s, c) && (c.line || c.block ==> comments) && Step(first, comments, s, c).Accepted? && Even(c, done)
    ensures forall id :: Object(done, id) ==> Lead(done, id) == 0 && Turns(done, id)
  {
    hide Turns, Lead;
    AcceptedDone(first, comments, s, c);
  }

  lemma {:induction false} AcceptedDone(first: bool, comments: bool, s: seq<byte>, c: Control)
    requires Proper(first, s, c) && (c.line || c.block ==> comments) && Step(first, comments, s, c).Accepted?
    ensures c.path == []
  {
    hide Escape, DigitTurn, Nested, Numbered, Word;
  }

  /** In every object names and values take turns, names first, and none is left over. */
  ghost predicate Matched(t: seq<Event>) {
    forall id :: Object(t, id) ==> Lead(t, id) == 0 && Turns(t, id)
  }

  /** So it is in every accepted text. */
  lemma {:induction false} NamesAndValues(comments: bool, s: seq<byte>, t: seq<Event>)
    requires Proper(true, s, START) && Run(true, comments, s, START) == Some(t)
    ensures Matched(t)
  {
    hide Run;
    RunEven(true, comments, s, START, [], t);
    assert [] + t == t;
  }

  // ----- where names begin -----

  /** A name begins so many bytes after the first and has so many characters. */
  datatype Label = Label(start: nat, chars: nat)

  function Labels(t: seq<Event>, id: nat): seq<Label> {
    if t == [] then [] else
      var before := t[..|t| - 1];
      var e := t[|t| - 1];
      if e.Key? && e.id == id then Labels(before, id) + [Label(|KeyBytes(before, id)|, |e.w|)] else Labels(before, id)
  }

  lemma {:induction false} LabelsAdds(done: seq<Event>, e: Event, id: nat)
    ensures Labels(done + [e], id)
         == Labels(done, id) + if e.Key? && e.id == id then [Label(|KeyBytes(done, id)|, |e.w|)] else []
  {
    assert (done + [e])[..|done|] == done;
    assert Labels(done, id) + [] == Labels(done, id);
  }

  lemma {:induction false} LabelsGrow(a: seq<Event>, b: seq<Event>, id: nat)
    ensures Labels(a, id) <= Labels(a + b, id)
    decreases |b|
  {
    if b == [] {
      assert a + b == a;
    } else {
      assert (a + b)[..|a + b| - 1] == a + b[..|b| - 1];
      LabelsGrow(a, b[..|b| - 1], id);
    }
  }

  lemma {:induction false} LeadIs(t: seq<Event>, id: nat)
    ensures |Labels(t, id)| == |Children(t, id)| + Lead(t, id)
  {
    if t != [] { LeadIs(t[..|t| - 1], id); }
  }

  lemma {:induction false} NoLabels(t: seq<Event>, id: nat)
    requires forall i :: 0 <= i < |t| ==> t[i].id != id
    ensures Labels(t, id) == []
  {
    if t != [] { NoLabels(t[..|t| - 1], id); }
  }

  /** When a name is complete, it names the value that comes next, and that will come. */
  lemma {:induction false} NamesNext(done: seq<Event>, e: Event, rest: seq<Event>, all: seq<Event>)
    requires all == done + [e] + rest && Matched(all) && Object(all, e.id) && e.Key?
    ensures |Labels(done, e.id)| == |Children(done, e.id)| < |Children(all, e.id)|
  {
    hide Lead, Labels, Children;
    assert all[|done|] == e && all[..|done|] == done;
    LeadIs(done, e.id);
    LeadIs(all, e.id);
    LabelsAdds(done, e, e.id);
    LabelsGrow(done + [e], rest, e.id);
  }
}
