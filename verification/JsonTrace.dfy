/** What the passes of the JSON reader do to memory, turn by turn, and what the first counts. */
module JsonTrace {
  import opened Basics
  import opened Json

  // ----- what a trace says about value `id` -----

  /** The values put into it, in order. */
  function Children(t: seq<Event>, id: nat): seq<nat> {
    if t == [] then [] else
      var rest := Children(t[..|t| - 1], id);
      var e := t[|t| - 1];
      if e.Child? && e.id == id then rest + [e.child] else rest
  }

  /** The names of its members, each with its terminating zero. */
  function KeyBytes(t: seq<Event>, id: nat): seq<byte> {
    if t == [] then [] else
      var rest := KeyBytes(t[..|t| - 1], id);
      var e := t[|t| - 1];
      if e.Key? && e.id == id then rest + e.w + [0] else rest
  }

  /** Its text, once complete. */
  function TextOf(t: seq<Event>, id: nat): Option<seq<byte>> {
    if t == [] then None else
      var e := t[|t| - 1];
      if e.Text? && e.id == id then Some(e.w) else TextOf(t[..|t| - 1], id)
  }

  lemma {:induction false} ChildrenAppend(a: seq<Event>, b: seq<Event>, id: nat)
    ensures Children(a + b, id) == Children(a, id) + Children(b, id)
    decreases |b|
  {
    if b == [] {
      assert a + b == a;
    } else {
      assert (a + b)[..|a + b| - 1] == a + b[..|b| - 1];
      ChildrenAppend(a, b[..|b| - 1], id);
    }
  }

  lemma {:induction false} KeyBytesAppend(a: seq<Event>, b: seq<Event>, id: nat)
    ensures KeyBytes(a + b, id) == KeyBytes(a, id) + KeyBytes(b, id)
    decreases |b|
  {
    if b == [] {
      assert a + b == a;
    } else {
      assert (a + b)[..|a + b| - 1] == a + b[..|b| - 1];
      KeyBytesAppend(a, b[..|b| - 1], id);
    }
  }

  lemma {:induction false} TextAppend(a: seq<Event>, b: seq<Event>, id: nat)
    ensures TextOf(a + b, id) == if TextOf(b, id).Some? then TextOf(b, id) else TextOf(a, id)
    decreases |b|
  {
    if b == [] {
      assert a + b == a;
    } else {
      assert (a + b)[..|a + b| - 1] == a + b[..|b| - 1];
      TextAppend(a, b[..|b| - 1], id);
    }
  }

  /** What one more event adds. */
  lemma {:induction false} Adds(done: seq<Event>, e: Event, id: nat)
    ensures Children(done + [e], id) == Children(done, id) + if e.Child? && e.id == id then [e.child] else []
    ensures KeyBytes(done + [e], id) == KeyBytes(done, id) + if e.Key? && e.id == id then e.w + [0] else []
    ensures TextOf(done + [e], id) == if e.Text? && e.id == id then Some(e.w) else TextOf(done, id)
  {
    assert (done + [e])[..|done|] == done;
    assert KeyBytes(done, id) + [] == KeyBytes(done, id) && Children(done, id) + [] == Children(done, id);
  }

  lemma {:induction false} NoEvents(t: seq<Event>, id: nat)
    requires forall i :: 0 <= i < |t| ==> t[i].id != id
    ensures Children(t, id) == [] && KeyBytes(t, id) == [] && TextOf(t, id) == None
  {
    if t != [] { NoEvents(t[..|t| - 1], id); }
  }

  // ----- what one turn does -----

  predicate SameKind(a: Kind, b: Kind) {
    a == b || (a.Number? && b.Number?)
  }

  /** The value on top joins the one below it. */
  ghost function Joined(path: seq<Open>): seq<Event> {
    var n := |path|;
    if n < 2 then [] else [Child(path[n - 2].id, path[n - 1].id)]
  }

  ghost function Popped(path: seq<Open>): seq<Open> {
    var n := |path|;
    if n < 2 then [] else path[..n - 2] + [path[n - 2].(count := path[n - 2].count + 1)]
  }

  ghost predicate SameShape(p: seq<Open>, q: seq<Open>) {
    |p| == |q| && forall i :: 0 <= i < |p| ==> p[i].id == q[i].id && SameKind(p[i].kind, q[i].kind)
  }

  /** A turn does nothing to memory, or opens a value, or completes the one on top, or makes
      and completes a value inside the one on top, or completes a name. */
  ghost predicate Does(c: Control, d: Control, ev: seq<Event>) {
    || (ev == [] && SameShape(d.path, c.path) && d.made == c.made && !c.str && (d.str ==> d.text == []))
    || (ev == [] && d.path == c.path && d.made == c.made && c.str && d.str && c.text <= d.text)
    || (exists k :: ev == [New(c.made, k)] && !c.str && d.path == c.path + [Open(c.made, k, 0)] && d.made == c.made + 1
                    && (c.path == [] || Holder(Top(c).kind)) && (d.str ==> d.text == []) && (k == Str ==> d.str))
    || (exists k :: ev == [New(c.made, k)] + Joined(c.path + [Open(c.made, k, 0)]) && d.path == Popped(c.path + [Open(c.made, k, 0)])
                    && d.made == c.made + 1 && (c.path == [] || Holder(Top(c).kind)) && k != Str && !c.str && !d.str)
    || (c.path != [] && ev == Joined(c.path) && d.path == Popped(c.path) && d.made == c.made && !c.str && !d.str)
    || (c.path != [] && ev == [Text(Top(c).id, c.text)] + Joined(c.path) && d.path == Popped(c.path) && d.made == c.made
        && c.str && Top(c).kind == Str && !d.str)
    || (c.path != [] && ev == [Key(Top(c).id, c.text)] && d.path == c.path && d.made == c.made && c.str && Top(c).kind == Obj && !d.str)
  }

  lemma {:induction false} FinishDoes(c: Control)
    requires c.path != []
    ensures !Finish(c).Accepted?
    ensures Finish(c).More? ==> Finish(c).ev == Joined(c.path) && Finish(c).c.path == Popped(c.path)
                                && Finish(c).c.made == c.made && Finish(c).c.str == c.str
  {}

  lemma {:induction false} StepDoes(first: bool, comments: bool, s: seq<byte>, c: Control)
    requires Proper(first, s, c) && (c.line || c.block ==> comments)
    ensures var t := Step(first, comments, s, c); t.More? ==> Does(c, t.c, t.ev)
  {
    hide StringTurn, SeekTurn, ObjectTurn, InNumberTurn, CommentTurn, SlashTurn, DoneTurn, Proper, Does;
    if c.str { StringDoes(first, s, c); }
    else if comments && (c.line || c.block) { CommentDoes(s, c); }
    else if comments && At(s, c.ptr) == SLASH { SlashDoes(first, s, c); }
    else if c.done { DoneDoes(s, c); }
    else if c.seek { SeekDoes(first, s, c); }
    else { MemberDoes(first, s, c); }
  }

  lemma {:induction false} StringDoes(first: bool, s: seq<byte>, c: Control)
    requires Proper(first, s, c) && c.str
    ensures var t := StringTurn(s, c); t.More? ==> Does(c, t.c, t.ev)
  {
    hide Escape, Finish, Nested, Numbered;
    FinishDoes(c.(ptr := c.ptr + 1, str := false));
  }

  lemma {:induction false} StaysDoes(c: Control, d: Control)
    requires d.path == c.path && d.made == c.made && !c.str && (d.str ==> d.text == [])
    ensures Does(c, d, [])
  {}

  lemma {:induction false} CommentDoes(s: seq<byte>, c: Control)
    requires (c.line || c.block) && !c.str
    ensures var t := CommentTurn(s, c); t.More? ==> Does(c, t.c, t.ev)
  {
    hide Does;
    var t := CommentTurn(s, c);
    if t.More? { StaysDoes(c, t.c); }
  }

  lemma {:induction false} SlashDoes(first: bool, s: seq<byte>, c: Control)
    requires Proper(first, s, c) && !c.str
    ensures c.path != [] || c.seek || c.done
    ensures var t := SlashTurn(s, c); t.More? ==> Does(c, t.c, t.ev)
  {
    hide Does, Nested, Numbered;
    var t := SlashTurn(s, c);
    if t.More? { StaysDoes(c, t.c); }
  }

  lemma {:induction false} DoneDoes(s: seq<byte>, c: Control)
    requires !c.str
    ensures var t := DoneTurn(s, c); t.More? ==> Does(c, t.c, t.ev)
  {
    hide Does;
    var t := DoneTurn(s, c);
    if t.More? { StaysDoes(c, t.c); }
  }

  lemma {:induction false} ClosesDoes(c: Control, d: Control)
    requires c.path != [] && !c.str && !d.str && d.made == c.made && d.path == Popped(c.path)
    ensures Does(c, d, Joined(c.path))
  {}

  lemma {:induction false} MemberDoes(first: bool, s: seq<byte>, c: Control)
    requires Proper(first, s, c) && !c.str && !c.seek && !c.done
    ensures c.path != [] && (Top(c).kind == Obj || Top(c).kind.Number?)
    ensures Top(c).kind == Obj && ObjectTurn(s, c).More? ==> Does(c, ObjectTurn(s, c).c, ObjectTurn(s, c).ev)
    ensures Top(c).kind.Number? && InNumberTurn(s, c).More? ==> Does(c, InNumberTurn(s, c).c, InNumberTurn(s, c).ev)
  {
    hide Finish, Nested, Numbered, DigitTurn, Joined, Popped;
    FinishDoes(c);
    FinishDoes(c.(ptr := c.ptr + 1, needComma := false));
  }

  lemma {:induction false} SeekDoes(first: bool, s: seq<byte>, c: Control)
    requires Proper(first, s, c) && c.seek && !c.str
    ensures var t := SeekTurn(first, s, c); t.More? ==> Does(c, t.c, t.ev)
  {
    hide Finish, ValueTurn, Nested, Numbered, Does, Joined, Popped;
    var t, found := SeekTurn(first, s, c), c.(seek := false);
    if IsSpace(At(s, c.ptr)) { StaysDoes(c, t.c); }
    else if At(s, c.ptr) == RBRACKET {
      if t.More? {
        FinishDoes(c.(ptr := c.ptr + 1, needComma := false, seek := false));
        ClosesDoes(c, t.c);
      }
    } else if c.needComma || c.needColon { if t.More? { StaysDoes(c, t.c); } }
    else { ValueDoes(first, s, c); }
  }

  lemma {:induction false} OpensDoes(c: Control, d: Control, k: Kind)
    requires !c.str && d.path == c.path + [Open(c.made, k, 0)] && d.made == c.made + 1
    requires (c.path == [] || Holder(Top(c).kind)) && (d.str ==> d.text == []) && (k == Str ==> d.str)
    ensures Does(c, d, [New(c.made, k)])
  {}

  lemma {:induction false} PassesDoes(c: Control, d: Control, k: Kind)
    requires !c.str && !d.str && k != Str && d.path == Popped(c.path + [Open(c.made, k, 0)]) && d.made == c.made + 1
    requires c.path == [] || Holder(Top(c).kind)
    ensures Does(c, d, [New(c.made, k)] + Joined(c.path + [Open(c.made, k, 0)]))
  {}

  lemma {:induction false} ValueDoes(first: bool, s: seq<byte>, c: Control)
    requires Proper(first, s, c) && c.seek && !c.str
    ensures var t := ValueTurn(first, s, c.(seek := false)); t.More? ==> Does(c, t.c, t.ev)
  {
    hide Nested, Numbered, Does, ScalarTurn, NumberTurn;
    var found := c.(seek := false);
    var b, t := At(s, c.ptr), ValueTurn(first, s, found);
    if b == LBRACE { OpensDoes(c, t.c, Obj); }
    else if b == LBRACKET { OpensDoes(c, t.c, Arr); }
    else if b == QUOTE { OpensDoes(c, t.c, Str); }
    else if b == 116 { ScalarDoes(s, c, TRUE); }
    else if b == 102 { ScalarDoes(s, c, FALSE); }
    else if b == 110 { ScalarDoes(s, c, NULL); }
    else if t.More? { NumberDoes(first, s, c); }
  }

  lemma {:induction false} NumberDoes(first: bool, s: seq<byte>, c: Control)
    requires !c.str && (c.path == [] || Holder(Top(c).kind)) && c.ptr < |s|
    ensures var t := NumberTurn(first, s, c.(seek := false)); t.More? ==> Does(c, t.c, t.ev)
  {
    hide Finish, Does, Joined, Popped;
    var found := c.(seek := false);
    var t := NumberTurn(first, s, found);
    if first { OpensDoes(c, t.c, Number(NEW_NUMBER)); }
    else if t.More? {
      FinishDoes(Create(found, Number(NEW_NUMBER)).(ptr := SkipNumber(s, c.ptr)));
      PassesDoes(c, t.c, Number(NEW_NUMBER));
    }
  }

  lemma {:induction false} ScalarDoes(s: seq<byte>, c: Control, w: seq<byte>)
    requires !c.str && (c.path == [] || Holder(Top(c).kind))
    ensures var t := ScalarTurn(s, c.(seek := false), w); t.More? ==> Does(c, t.c, t.ev)
  {
    hide Finish, Does, Joined, Popped, Word;
    var t := ScalarTurn(s, c.(seek := false), w);
    if t.More? {
      FinishDoes(Create(c.(seek := false), Scalar).(ptr := c.ptr + |w|));
      PassesDoes(c, t.c, Scalar);
    }
  }

  lemma {:induction false} DoesMeans(c: Control, d: Control, ev: seq<Event>)
    requires Does(c, d, ev)
    ensures d.made == c.made + (if ev != [] && ev[0].New? then 1 else 0)
    ensures ev == [] && c.str ==> d.str && d.path == c.path && c.text <= d.text
    ensures ev != [] ==> !(c.str && d.str)
    ensures ev != [] && ev[0].New? ==> ev[0].id == c.made
  {
    hide Popped;
  }

  lemma {:induction false} EventText(c: Control, d: Control, ev: seq<Event>, id: nat)
    requires Does(c, d, ev)
    ensures TextOf(ev, id) == if ev != [] && ev[0].Text? && ev[0].id == id then Some(c.text) else None
  {
    hide Popped;
    if |ev| == 1 {
      assert ev[..0] == [];
    } else if |ev| == 2 {
      assert ev[..1] == [ev[0]] && [ev[0]][..0] == [];
      assert TextOf([ev[0]], id) == if ev[0].Text? && ev[0].id == id then Some(ev[0].w) else None;
    }
  }

  // ----- which events can still come -----

  ghost function Ids(path: seq<Open>): (ids: seq<nat>)
    ensures |ids| == |path| && forall i :: 0 <= i < |path| ==> ids[i] == path[i].id
  {
    seq(|path|, i requires 0 <= i < |path| => path[i].id)
  }

  /** A turn from `c` touches only values that are open or that it makes, and leaves open a
      prefix of the path, possibly longer by the value it made. */
  ghost predicate Local(c: Control, t: Turn) {
    t.More? ==>
      && t.c.made == c.made + (if t.ev != [] && t.ev[0].New? then 1 else 0) && Ids(t.c.path) <= Ids(c.path) + [c.made]
      && forall i :: 0 <= i < |t.ev| ==> if t.ev[i].New? then i == 0 && t.ev[i].id == c.made else t.ev[i].id in Ids(c.path)
  }

  lemma {:induction false} PoppedIds(path: seq<Open>)
    requires path != []
    ensures Ids(Popped(path)) <= Ids(path)[..|path| - 1]
    ensures forall i :: 0 <= i < |Joined(path)| ==> !Joined(path)[i].New? && Joined(path)[i].id in Ids(path)[..|path| - 1]
  {
    var n := |path|;
    if n > 1 {
      assert Ids(path)[..n - 1][n - 2] == path[n - 2].id;
      assert Ids(Popped(path)) == Ids(path)[..n - 1];
    }
  }

  lemma {:induction false} DoesLocal(c: Control, d: Control, ev: seq<Event>)
    requires Does(c, d, ev)
    ensures Local(c, More(d, ev))
  {
    hide Joined, Popped;
    if c.path != [] {
      PoppedIds(c.path);
      assert Ids(c.path)[|c.path| - 1] == Top(c).id;
    }
    if k :| ev != [] && ev[0] == New(c.made, k) {
      var path := c.path + [Open(c.made, k, 0)];
      PoppedIds(path);
      assert Ids(path) == Ids(c.path) + [c.made] && Ids(path)[..|c.path|] == Ids(c.path);
    }
  }

  lemma {:induction false} StepLocal(first: bool, comments: bool, s: seq<byte>, c: Control)
    requires Proper(first, s, c) && (c.line || c.block ==> comments)
    ensures Local(c, Step(first, comments, s, c))
  {
    hide Step, Does;
    StepDoes(first, comments, s, c);
    var t := Step(first, comments, s, c);
    if t.More? { DoesLocal(c, t.c, t.ev); }
  }

  /** From `c` on only values that are open, or yet to be made, are touched. */
  lemma {:induction false} RunLocal(first: bool, comments: bool, s: seq<byte>, c: Control, t: seq<Event>)
    requires Proper(first, s, c) && (c.line || c.block ==> comments) && Run(first, comments, s, c) == Some(t)
    ensures forall i :: 0 <= i < |t| ==> t[i].id in Ids(c.path) || t[i].id >= c.made
    decreases |s| - c.ptr, Rank(c)
  {
    hide Step;
    StepProper(first, comments, s, c);
    StepLocal(first, comments, s, c);
    var u := Step(first, comments, s, c);
    if u.More? {
      var rest := t[|u.ev|..];
      RunLocal(first, comments, s, u.c, rest);
      forall i | 0 <= i < |t| ensures t[i].id in Ids(c.path) || t[i].id >= c.made {
        if i >= |u.ev| { LaterLocal(c, u.c, rest[i - |u.ev|].id); }
      }
    }
  }

  lemma {:induction false} LaterLocal(c: Control, d: Control, id: nat)
    requires c.made <= d.made && Ids(d.path) <= Ids(c.path) + [c.made]
    requires id in Ids(d.path) || id >= d.made
    ensures id in Ids(c.path) || id >= c.made
  {
    if id in Ids(d.path) {
      var i :| 0 <= i < |d.path| && Ids(d.path)[i] == id;
      assert (Ids(c.path) + [c.made])[i] == id;
    }
  }

  /** Once completed, the value on top is no longer open. */
  lemma {:induction false} PoppedGone(first: bool, s: seq<byte>, c: Control)
    requires Proper(first, s, c) && c.path != []
    ensures Top(c).id !in Ids(Popped(c.path))
  {
    PoppedIds(c.path);
    var above := Ids(c.path)[..|c.path| - 1];
    forall i | 0 <= i < |above| ensures above[i] < Top(c).id { assert above[i] == c.path[i].id; }
    forall i | 0 <= i < |Popped(c.path)| ensures Ids(Popped(c.path))[i] < Top(c).id { assert Ids(Popped(c.path))[i] == above[i]; }
  }

  /** The text being completed is the only text its value ever gets. */
  lemma {:induction false} OnlyText(first: bool, comments: bool, s: seq<byte>, d: Control, rest: seq<Event>, done: seq<Event>, ev: seq<Event>, id: nat, w: seq<byte>)
    requires Proper(first, s, d) && (d.line || d.block ==> comments) && Run(first, comments, s, d) == Some(rest)
    requires id !in Ids(d.path) && id < d.made && ev != [] && ev[0] == Text(id, w) && forall i :: 1 <= i < |ev| ==> !ev[i].Text?
    ensures TextOf(done + ev + rest, id) == Some(w)
  {
    hide Run;
    RunLocal(first, comments, s, d, rest);
    NoEvents(rest, id);
    TextAppend(done + ev, rest, id);
    TextAppend(done, ev, id);
    FirstText(ev, id);
  }

  lemma {:induction false} FirstText(ev: seq<Event>, id: nat)
    requires ev != [] && ev[0].Text? && ev[0].id == id && forall i :: 1 <= i < |ev| ==> !ev[i].Text?
    ensures TextOf(ev, id) == Some(ev[0].w)
    decreases |ev|
  {
    if |ev| > 1 { FirstText(ev[..|ev| - 1], id); }
  }

  /** The string or key being read is the next thing completed; it begins with what has been
      read of it, and a string is completed only once. */
  lemma {:induction false} TextComes(first: bool, comments: bool, s: seq<byte>, c: Control, t: seq<Event>) returns (w: seq<byte>)
    requires Proper(first, s, c) && (c.line || c.block ==> comments) && c.str && Run(first, comments, s, c) == Some(t)
    ensures t != [] && c.text <= w
    ensures t[0] == if Top(c).kind == Str then Text(Top(c).id, w) else Key(Top(c).id, w)
    ensures Top(c).kind == Str ==> TextOf(t, Top(c).id) == Some(w)
    decreases |s| - c.ptr, Rank(c)
  {
    hide Finish, Escape, Step, StringTurn, Joined, Popped, Rank, TextOf;
    StepProper(first, comments, s, c);
    StringStep(first, comments, s, c);
    var u := Step(first, comments, s, c);
    w := c.text;
    if u.c.str {
      assert u.ev + Run(first, comments, s, u.c).value == Run(first, comments, s, u.c).value;
      w := TextComes(first, comments, s, u.c, t);
    } else if Top(c).kind == Str {
      TextEnds(first, comments, s, c, u.c, u.ev, t);
    }
  }

  lemma {:induction false} StringStep(first: bool, comments: bool, s: seq<byte>, c: Control)
    requires Proper(first, s, c) && (c.line || c.block ==> comments) && c.str
    ensures var u := Step(first, comments, s, c);
            && !u.Accepted?
            && (u.More? ==>
                  if u.c.str then u.ev == [] && u.c.path == c.path && c.text <= u.c.text
                  else if Top(c).kind == Str then u.ev == [Text(Top(c).id, c.text)] + Joined(c.path) && u.c.path == Popped(c.path) && u.c.made == c.made
                  else u.ev == [Key(Top(c).id, c.text)])
  {
    hide Escape, Finish, Nested, Numbered, Joined, Popped;
    FinishDoes(c.(ptr := c.ptr + 1, str := false));
  }

  lemma {:induction false} NotInString(first: bool, comments: bool, s: seq<byte>, c: Control)
    requires Proper(first, s, c) && (c.line || c.block ==> comments) && Step(first, comments, s, c).Accepted?
    ensures !c.str
  {
    hide Step, Joined, Popped;
    if c.str { StringStep(first, comments, s, c); }
  }

  lemma {:induction false} TextEnds(first: bool, comments: bool, s: seq<byte>, c: Control, d: Control, ev: seq<Event>, t: seq<Event>)
    requires Proper(first, s, c) && c.str && Top(c).kind == Str && ev == [Text(Top(c).id, c.text)] + Joined(c.path)
    requires Proper(first, s, d) && (d.line || d.block ==> comments) && d.path == Popped(c.path) && d.made == c.made
    requires Run(first, comments, s, d).Some? && t == ev + Run(first, comments, s, d).value
    ensures TextOf(t, Top(c).id) == Some(c.text)
  {
    hide Run, TextOf;
    var rest := Run(first, comments, s, d).value;
    PoppedGone(first, s, c);
    IdsMade(first, s, c);
    assert Ids(c.path)[|c.path| - 1] == Top(c).id;
    OnlyText(first, comments, s, d, rest, [], ev, Top(c).id, c.text);
    assert [] + ev + rest == t;
  }

  // ----- the first pass -----

  /** What the first pass keeps of a value: how many values it holds, the length of its text,
      and the room its member names take. */
  datatype Node = Node(kind: Kind, items: nat, chars: nat, keyBytes: nat)

  function Count(nodes: seq<Node>, e: Event): seq<Node> {
    if e.New? then nodes + [Node(e.kind, 0, 0, 0)]
    else if e.id >= |nodes| then nodes
    else match e
      case Text(id, w) => nodes[id := nodes[id].(chars := |w|)]
      case Key(id, w) => nodes[id := nodes[id].(keyBytes := nodes[id].keyBytes + |w| + 1)]
      case Child(id, _) => nodes[id := nodes[id].(items := nodes[id].items + 1)]
  }

  function CountAll(nodes: seq<Node>, t: seq<Event>): seq<Node> {
    if t == [] then nodes else Count(CountAll(nodes, t[..|t| - 1]), t[|t| - 1])
  }

  lemma {:induction false} CountAppend(nodes: seq<Node>, a: seq<Event>, b: seq<Event>)
    ensures CountAll(nodes, a + b) == CountAll(CountAll(nodes, a), b)
    decreases |b|
  {
    if b == [] {
      assert a + b == a;
    } else {
      assert (a + b)[..|a + b| - 1] == a + b[..|b| - 1];
      CountAppend(nodes, a, b[..|b| - 1]);
    }
  }

  /** Checks the text and counts. */
  method SizingPass(comments: bool, s: seq<byte>) returns (nodes: Option<seq<Node>>)
    ensures Proper(true, s, START)
    ensures var r := Run(true, comments, s, START); nodes == if r.Some? then Some(CountAll([], r.value)) else None
  {
    hide Step, Count;
    StartProper(true, s);
    var c := START;
    var counted: seq<Node> := [];
    ghost var trace: seq<Event> := [];
    ghost var r := Run(true, comments, s, START);
    assert r.Some? ==> [] + r.value == r.value;
    while true
      invariant Proper(true, s, c) && (c.line || c.block ==> comments) && counted == CountAll([], trace)
      invariant var rest := Run(true, comments, s, c); r == if rest.Some? then Some(trace + rest.value) else None
      decreases |s| - c.ptr, Rank(c)
    {
      StepProper(true, comments, s, c);
      var t := Step(true, comments, s, c);
      match t {
        case Rejected => return None;
        case Accepted =>
          assert trace + [] == trace;
          return Some(counted);
        case More(d, ev) =>
          ghost var rest := Run(true, comments, s, d);
          assert rest.Some? ==> trace + (ev + rest.value) == (trace + ev) + rest.value;
          CountAppend([], trace, ev);
          for i := 0 to |ev|
            invariant counted == CountAll(CountAll([], trace), ev[..i])
          {
            assert ev[..i + 1][..i] == ev[..i];
            counted := Count(counted, ev[i]);
          }
          assert ev[..|ev|] == ev;
          trace := trace + ev;
          c := d;
      }
    }
  }

  // ----- what was counted -----

  /** Values are made in order, and touched only after they are made. */
  ghost predicate InOrder(t: seq<Event>, made: nat) {
    t == [] || (if t[0].New? then t[0].id == made && InOrder(t[1..], made + 1) else t[0].id < made && InOrder(t[1..], made))
  }

  lemma {:induction false} RunInOrder(first: bool, comments: bool, s: seq<byte>, c: Control, t: seq<Event>)
    requires Proper(first, s, c) && (c.line || c.block ==> comments) && Run(first, comments, s, c) == Some(t)
    ensures InOrder(t, c.made)
    decreases |s| - c.ptr, Rank(c)
  {
    hide Step;
    StepProper(first, comments, s, c);
    StepLocal(first, comments, s, c);
    var u := Step(first, comments, s, c);
    if u.More? {
      var rest := t[|u.ev|..];
      assert rest == Run(first, comments, s, u.c).value && t == u.ev + rest;
      RunInOrder(first, comments, s, u.c, rest);
      IdsMade(first, s, c);
      InOrderAfter(u.ev, rest, c.made, u.c.made);
    }
  }

  lemma {:induction false} IdsMade(first: bool, s: seq<byte>, c: Control)
    requires Proper(first, s, c)
    ensures forall id :: id in Ids(c.path) ==> id < c.made
  {}

  lemma {:induction false} InOrderAfter(ev: seq<Event>, rest: seq<Event>, made: nat, made': nat)
    requires InOrder(rest, made') && made' == made + if ev != [] && ev[0].New? then 1 else 0
    requires forall i :: 0 <= i < |ev| ==> if ev[i].New? then i == 0 && ev[i].id == made else ev[i].id < made
    ensures InOrder(ev + rest, made)
    decreases |ev|
  {
    if ev == [] {
      assert ev + rest == rest;
    } else {
      assert (ev + rest)[1..] == ev[1..] + rest;
      InOrderAfter(ev[1..], rest, made', made');
    }
  }

  ghost predicate Counted(n: Node, t: seq<Event>, id: nat) {
    && n.items == |Children(t, id)| && n.keyBytes == |KeyBytes(t, id)|
    && n.chars == if TextOf(t, id).Some? then |TextOf(t, id).value| else 0
  }

  /** The counts are right: for every value, as many values, name bytes and characters as the
      whole trace holds for it. */
  lemma {:induction false} CountsRight(done: seq<Event>, rest: seq<Event>)
    requires InOrder(rest, |CountAll([], done)|)
    requires forall id :: 0 <= id < |CountAll([], done)| ==> Counted(CountAll([], done)[id], done, id)
    requires forall i :: 0 <= i < |done| ==> done[i].id < |CountAll([], done)|
    ensures var nodes := CountAll([], done + rest); forall id :: 0 <= id < |nodes| ==> Counted(nodes[id], done + rest, id)
    decreases |rest|
  {
    if rest == [] {
      assert done + rest == done;
    } else {
      var more := done + [rest[0]];
      CountsOne(done, rest[0]);
      assert more[..|done|] == done;
      assert done + rest == more + rest[1..];
      CountsRight(more, rest[1..]);
    }
  }

  lemma {:induction false} CountsOne(done: seq<Event>, e: Event)
    requires var n := |CountAll([], done)|; if e.New? then e.id == n else e.id < n
    requires forall id :: 0 <= id < |CountAll([], done)| ==> Counted(CountAll([], done)[id], done, id)
    requires forall i :: 0 <= i < |done| ==> done[i].id < |CountAll([], done)|
    ensures var more := done + [e]; var nodes := CountAll([], more);
            && |nodes| == |CountAll([], done)| + (if e.New? then 1 else 0)
            && (forall id :: 0 <= id < |nodes| ==> Counted(nodes[id], more, id))
            && (forall i :: 0 <= i < |more| ==> more[i].id < |nodes|)
  {
    var more := done + [e];
    assert more[..|done|] == done && more[|done|] == e;
    if e.New? { NoEvents(done, e.id); }
  }

  // ----- how many values -----

  function News(t: seq<Event>): nat {
    if t == [] then 0 else News(t[..|t| - 1]) + if t[|t| - 1].New? then 1 else 0
  }

  lemma {:induction false} CountSize(t: seq<Event>)
    ensures |CountAll([], t)| == News(t)
  {
    if t != [] { CountSize(t[..|t| - 1]); }
  }

  lemma {:induction false} NewsAppend(a: seq<Event>, b: seq<Event>)
    ensures News(a + b) == News(a) + News(b)
    decreases |b|
  {
    if b == [] {
      assert a + b == a;
    } else {
      assert (a + b)[..|a + b| - 1] == a + b[..|b| - 1];
      NewsAppend(a, b[..|b| - 1]);
    }
  }

  lemma {:induction false} TurnNews(c: Control, d: Control, ev: seq<Event>)
    requires Does(c, d, ev)
    ensures News(ev) == if ev != [] && ev[0].New? then 1 else 0
  {
    hide Popped;
    if |ev| == 1 {
      assert ev[..0] == [];
    } else if |ev| == 2 {
      assert ev[..1] == [ev[0]] && [ev[0]][..0] == [];
      assert News([ev[0]]) == if ev[0].New? then 1 else 0;
    }
  }

  lemma {:induction false} MadeCounts(c: Control, d: Control, ev: seq<Event>, done: seq<Event>, rest: seq<Event>)
    requires Does(c, d, ev) && |CountAll([], done)| == c.made && d.made == c.made + if ev != [] && ev[0].New? then 1 else 0
    ensures |CountAll([], done + ev)| == d.made <= |CountAll([], done + ev + rest)|
  {
    hide Does;
    TurnNews(c, d, ev);
    CountSize(done);
    CountSize(done + ev);
    CountSize(done + ev + rest);
    NewsAppend(done, ev);
    NewsAppend(done + ev, rest);
  }
}
