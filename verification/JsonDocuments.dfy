/** Whole JSON documents: what is written is what is read, value by value. */
module JsonDocuments {
  import opened Basics
  import opened Json
  import opened JsonText

  // ----- documents -----

  /** A document, with its strings and numbers as they are written. */
  datatype Doc =
    | Null
    | Truth(b: bool)
    | Numeral(l: Literal)
    | Quoted(ps: seq<Piece>)
    | Sequence(items: Items)
    | Dictionary(items: Items)

  /** Items of an array or members of an object; in an array the names do not matter. */
  datatype Items = End | Item(name: seq<Piece>, value: Doc, rest: Items)

  predicate LegalDoc(d: Doc) {
    match d
    case Numeral(l) => LegalNumber(l)
    case Quoted(ps) => AllLegal(ps)
    case Sequence(items) => LegalItems(items)
    case Dictionary(items) => LegalItems(items)
    case _ => true
  }

  predicate LegalItems(items: Items) {
    items.End? || (AllLegal(items.name) && LegalDoc(items.value) && LegalItems(items.rest))
  }

  function DocText(d: Doc): seq<byte>
    requires LegalDoc(d)
  {
    match d
    case Null => [110, 117, 108, 108]
    case Truth(b) => if b then [116, 114, 117, 101] else [102, 97, 108, 115, 101]
    case Numeral(l) => NumberText(l)
    case Quoted(ps) => [QUOTE] + (StringText(ps) + [QUOTE])
    case Sequence(items) => [LBRACKET] + (ItemsText(items, false) + [RBRACKET])
    case Dictionary(items) => [LBRACE] + (ItemsText(items, true) + [RBRACE])
  }

  function NameText(ps: seq<Piece>, named: bool): seq<byte>
    requires AllLegal(ps)
  {
    if named then [QUOTE] + (StringText(ps) + [QUOTE]) + [COLON] else []
  }

  /** Items with commas between them. */
  function ItemsText(items: Items, named: bool): seq<byte>
    requires LegalItems(items)
  {
    if items.End? then []
    else NameText(items.name, named) + (DocText(items.value) + (if items.rest.End? then [] else [COMMA] + ItemsText(items.rest, named)))
  }

  // ----- what becomes of it -----

  /** Values are numbered in the order in which they begin. */
  function Values(d: Doc): nat {
    match d
    case Sequence(items) => 1 + ItemValues(items)
    case Dictionary(items) => 1 + ItemValues(items)
    case _ => 1
  }

  function ItemValues(items: Items): nat {
    if items.End? then 0 else Values(items.value) + ItemValues(items.rest)
  }

  function Size(items: Items): nat { if items.End? then 0 else 1 + Size(items.rest) }

  function KindOf(d: Doc): Kind {
    match d
    case Numeral(_) => Number(NEW_NUMBER)
    case Quoted(_) => Str
    case Sequence(_) => Arr
    case Dictionary(_) => Obj
    case _ => Scalar
  }

  /** What making the value with number `k` does. */
  function Made(d: Doc, k: nat): seq<Event>
    requires LegalDoc(d)
  {
    match d
    case Quoted(ps) => [New(k, Str), Text(k, StringTaken(ps))]
    case Sequence(items) => [New(k, Arr)] + MadeItems(items, false, k, k + 1)
    case Dictionary(items) => [New(k, Obj)] + MadeItems(items, true, k, k + 1)
    case _ => [New(k, KindOf(d))]
  }

  /** The same for the items of `parent`, the first of which gets number `k`. */
  function MadeItems(items: Items, named: bool, parent: nat, k: nat): seq<Event>
    requires LegalItems(items)
  {
    if items.End? then []
    else (if named then [Key(parent, StringTaken(items.name))] else [])
         + (Made(items.value, k) + ([Child(parent, k)] + MadeItems(items.rest, named, parent, k + Values(items.value))))
  }

  /** What the reader takes: no number with a fraction behind a whole part beyond 64 bits, and
      nothing longer than 32 bits can count. */
  predicate Readable(d: Doc)
    requires LegalDoc(d)
  {
    match d
    case Numeral(l) => ReadableNumber(l)
    case Quoted(ps) => |StringTaken(ps)| <= LIMIT
    case Sequence(items) => Size(items) <= LIMIT && ReadableItems(items, false)
    case Dictionary(items) => Size(items) <= LIMIT && ReadableItems(items, true)
    case _ => true
  }

  predicate ReadableItems(items: Items, named: bool)
    requires LegalItems(items)
  {
    items.End?
    || ((named ==> |StringTaken(items.name)| <= LIMIT) && Readable(items.value) && ReadableItems(items.rest, named))
  }

  // ----- reading -----

  function Prepend(ev: seq<Event>, r: Option<seq<Event>>): Option<seq<Event>> {
    if r.None? then None else Some(ev + r.value)
  }

  lemma {:induction false} PrependTwice(a: seq<Event>, b: seq<Event>, r: Option<seq<Event>>)
    ensures Prepend(a, Prepend(b, r)) == Prepend(a + b, r)
  {
    assert r.Some? ==> a + (b + r.value) == (a + b) + r.value;
  }

  /** The reader is about to read a value. */
  ghost predicate Seeking(s: seq<byte>, c: Control) {
    Proper(true, s, c) && c.seek && !c.needComma && !c.needColon && !c.str && !c.escaped && !c.done && !c.line && !c.block
  }

  /** The value made at `c` is complete at `e`: only what is inside it has changed. */
  ghost predicate Complete(s: seq<byte>, c: Control, e: Control, ptr: nat, made: nat) {
    && Finishing(s, e) && !e.escaped && !e.needColon && e.ptr == ptr && e.made == made
    && |e.path| == |c.path| + 1 && e.path[..|c.path|] == c.path && Top(e).id == c.made
  }

  /** A value made in one turn. */
  lemma {:induction false} WordRuns(comments: bool, s: seq<byte>, c: Control, w: seq<byte>) returns (e: Control)
    requires Seeking(s, c) && Sits(s, c.ptr, w) && (w == TRUE || w == FALSE || w == NULL)
    ensures Complete(s, c, e, c.ptr + |w|, c.made + 1)
    ensures Run(true, comments, s, c) == Prepend([New(c.made, Scalar)], RunFinish(comments, s, e))
  {
    hide Finish, Run, Step, Proper, RunFinish;
    e := Create(c.(seek := false), Scalar).(ptr := c.ptr + |w|);
    WordMade(s, c, w);
    WordStep(comments, s, c, w);
    TurnFinishes(comments, s, c, e, [New(c.made, Scalar)]);
  }

  lemma {:induction false} WordMade(s: seq<byte>, c: Control, w: seq<byte>)
    requires Seeking(s, c) && Sits(s, c.ptr, w)
    ensures Proper(true, s, c) && Complete(s, c, Create(c.(seek := false), Scalar).(ptr := c.ptr + |w|), c.ptr + |w|, c.made + 1)
  {
    hide Nested, Numbered;
    OpenNests(c, Scalar);
  }

  /** A turn that makes something and completes it. */
  lemma {:induction false} TurnFinishes(comments: bool, s: seq<byte>, c: Control, e: Control, ev: seq<Event>)
    requires Proper(true, s, c) && !c.line && !c.block && Finishing(s, e) && Step(true, comments, s, c) == Then(ev, Finish(e))
    ensures Run(true, comments, s, c) == Prepend(ev, RunFinish(comments, s, e))
  {
    hide Finish, Run, Step, Proper, Nested, Numbered;
    FinishProper(true, s, e);
    var t := Finish(e);
    if t.More? {
      RunStep(comments, s, c, t.c, ev + t.ev);
      PrependTwice(ev, t.ev, Run(true, comments, s, t.c));
    } else {
      Refused(comments, s, c);
    }
  }

  lemma {:induction false} WordStep(comments: bool, s: seq<byte>, c: Control, w: seq<byte>)
    requires Seeking(s, c) && Sits(s, c.ptr, w) && (w == TRUE || w == FALSE || w == NULL)
    ensures Step(true, comments, s, c) == Then([New(c.made, Scalar)], Finish(Create(c.(seek := false), Scalar).(ptr := c.ptr + |w|)))
  {
    hide Finish, Nested, Numbered;
    SitsAt(s, c.ptr, w, 0);
  }

  lemma {:induction false} Refused(comments: bool, s: seq<byte>, c: Control)
    requires Proper(true, s, c) && !c.line && !c.block && Step(true, comments, s, c).Rejected?
    ensures Run(true, comments, s, c) == None
  {
    hide Step, Proper;
  }

  /** A number, with its sign. */
  lemma {:induction false} NumberRuns(comments: bool, s: seq<byte>, c: Control, l: Literal) returns (e: Control)
    requires Seeking(s, c) && LegalNumber(l) && Sits(s, c.ptr, NumberText(l)) && Closes(At(s, c.ptr + |NumberText(l)|))
    ensures Complete(s, c, e, c.ptr + |NumberText(l)|, c.made + 1)
    ensures Run(true, comments, s, c)
         == if ReadableNumber(l) then Prepend([New(c.made, Number(NEW_NUMBER))], RunFinish(comments, s, e)) else None
  {
    hide Run, Nested, Numbered, RunFinish, ReadableNumber, FractionText, ExponentText, Seeking, Proper, InNumeral, Finishing;
    var sign := if l.negative then [MINUS] else [];
    var rest := l.whole + (FractionText(l.fraction) + ExponentText(l.exponent));
    SitsSplit(s, c.ptr, sign, rest);
    SitsSplit(s, c.ptr + |sign|, l.whole, FractionText(l.fraction) + ExponentText(l.exponent));
    SitsAt(s, c.ptr + |sign|, l.whole, 0);
    if l.negative { SitsAt(s, c.ptr, sign, 0); }
    var d := NumberStarts(comments, s, c);
    var n := NumeralRuns(comments, s, d, l);
    e := With(d, d.ptr + |rest|, n);
    assert e.path[..|c.path|] == c.path;
  }

  lemma {:induction false} NumberStarts(comments: bool, s: seq<byte>, c: Control) returns (d: Control)
    requires Seeking(s, c) && c.ptr < |s| && (IsDigit(s[c.ptr]) || s[c.ptr] == MINUS)
    ensures InNumeral(s, d, NEW_NUMBER) && d.ptr == (if s[c.ptr] == MINUS then c.ptr + 1 else c.ptr) && d.made == c.made + 1
    ensures d.path == c.path + [Open(c.made, Number(NEW_NUMBER), 0)] && !d.escaped && !d.needColon
    ensures Run(true, comments, s, c) == Prepend([New(c.made, Number(NEW_NUMBER))], Run(true, comments, s, d))
  {
    hide Nested, Numbered, Run;
    d := Create(c.(seek := false), Number(NEW_NUMBER)).(ptr := if s[c.ptr] == MINUS then c.ptr + 1 else c.ptr);
    OpenNests(c, Number(NEW_NUMBER));
    StartStep(comments, s, c, d);
    RunStep(comments, s, c, d, [New(c.made, Number(NEW_NUMBER))]);
  }

  lemma {:induction false} StartStep(comments: bool, s: seq<byte>, c: Control, d: Control)
    requires Seeking(s, c) && c.ptr < |s| && (IsDigit(s[c.ptr]) || s[c.ptr] == MINUS)
    requires d == Create(c.(seek := false), Number(NEW_NUMBER)).(ptr := if s[c.ptr] == MINUS then c.ptr + 1 else c.ptr)
    ensures Step(true, comments, s, c) == More(d, [New(c.made, Number(NEW_NUMBER))])
  {
    hide Nested, Numbered, Finish;
  }

  /** A string as a value. */
  lemma {:induction false} QuotedRuns(comments: bool, s: seq<byte>, c: Control, ps: seq<Piece>) returns (e: Control)
    requires Seeking(s, c) && AllLegal(ps) && Sits(s, c.ptr, [QUOTE] + (StringText(ps) + [QUOTE]))
    ensures Complete(s, c, e, c.ptr + |StringText(ps)| + 2, c.made + 1)
    ensures Run(true, comments, s, c) == if |StringTaken(ps)| <= LIMIT
              then Prepend([New(c.made, Str), Text(c.made, StringTaken(ps))], RunFinish(comments, s, e)) else None
  {
    hide Run, Nested, Numbered, RunFinish, StringText, StringTaken, Finish;
    SitsSplit(s, c.ptr, [QUOTE], StringText(ps) + [QUOTE]);
    SitsSplit(s, c.ptr + 1, StringText(ps), [QUOTE]);
    SitsAt(s, c.ptr, [QUOTE], 0);
    SitsAt(s, c.ptr + 1 + |StringText(ps)|, [QUOTE], 0);
    var d := Create(c.(seek := false), Str).(ptr := c.ptr + 1, str := true, text := []);
    OpenNests(c, Str);
    assert InString(s, d);
    QuoteOpens(comments, s, c, d);
    RunStep(comments, s, c, d, [New(c.made, Str)]);
    StringRuns(comments, s, d, ps);
    var f := d.(ptr := d.ptr + |StringText(ps)|, text := StringTaken(ps));
    assert [] + StringTaken(ps) == StringTaken(ps);
    e := f.(ptr := f.ptr + 1, str := false);
    assert Complete(s, c, e, c.ptr + |StringText(ps)| + 2, c.made + 1);
    if |f.text| <= LIMIT {
      StringCloses(comments, s, f, e);
      PrependTwice([New(c.made, Str)], [Text(c.made, f.text)], RunFinish(comments, s, e));
      assert [New(c.made, Str)] + [Text(c.made, f.text)] == [New(c.made, Str), Text(c.made, f.text)];
    }
  }

  lemma {:induction false} QuoteOpens(comments: bool, s: seq<byte>, c: Control, d: Control)
    requires Seeking(s, c) && c.ptr < |s| && s[c.ptr] == QUOTE
    requires d == Create(c.(seek := false), Str).(ptr := c.ptr + 1, str := true, text := [])
    ensures Step(true, comments, s, c) == More(d, [New(c.made, Str)])
  {
    hide Nested, Numbered, Finish;
  }

  lemma {:induction false} StringCloses(comments: bool, s: seq<byte>, f: Control, e: Control)
    requires InString(s, f) && f.ptr < |s| && s[f.ptr] == QUOTE && |f.text| <= LIMIT && Top(f).kind == Str
    requires e == f.(ptr := f.ptr + 1, str := false) && Finishing(s, e)
    ensures Run(true, comments, s, f) == Prepend([Text(Top(f).id, f.text)], RunFinish(comments, s, e))
  {
    hide Finish, Nested, Numbered, Run, RunFinish;
    assert Step(true, comments, s, f) == Then([Text(Top(f).id, f.text)], Finish(e));
    TurnFinishes(comments, s, f, e, [Text(Top(f).id, f.text)]);
  }

  // ----- reading items -----

  /** Between the items of an array or the members of an object. */
  ghost predicate Inside(s: seq<byte>, c: Control, named: bool) {
    && Proper(true, s, c) && c.path != [] && Top(c).kind == (if named then Obj else Arr) && c.seek == !named
    && !c.needColon && !c.str && !c.escaped && !c.done && !c.line && !c.block
  }

  /** A name and its colon. */
  lemma {:induction false} NameRuns(comments: bool, s: seq<byte>, c: Control, ps: seq<Piece>) returns (d: Control)
    requires Inside(s, c, true) && !c.needComma && AllLegal(ps) && Sits(s, c.ptr, NameText(ps, true))
    ensures Seeking(s, d) && d.path == c.path && d.made == c.made && d.ptr == c.ptr + |NameText(ps, true)|
    ensures Run(true, comments, s, c) == if |StringTaken(ps)| <= LIMIT
              then Prepend([Key(Top(c).id, StringTaken(ps))], Run(true, comments, s, d)) else None
  {
    hide Run, Proper, StringText, StringTaken, NameText, Sits;
    var t := StringText(ps);
    NameSits(s, c.ptr, ps);
    var a := c.(ptr := c.ptr + 1, str := true, text := []);
    NameOpens(comments, s, c, a);
    StringRuns(comments, s, a, ps);
    assert [] + StringTaken(ps) == StringTaken(ps);
    var b := a.(ptr := a.ptr + |t|, text := StringTaken(ps));
    d := b.(ptr := b.ptr + 2, str := false, seek := true);
    NameEnds(comments, s, c, b, d);
  }

  lemma {:induction false} NameSits(s: seq<byte>, p: nat, ps: seq<Piece>)
    requires AllLegal(ps) && Sits(s, p, NameText(ps, true))
    ensures var t := StringText(ps);
            && p + |t| + 2 < |s| && s[p] == QUOTE && Sits(s, p + 1, t + [QUOTE]) && s[p + 1 + |t|] == QUOTE && s[p + 2 + |t|] == COLON
            && |NameText(ps, true)| == |t| + 3
  {
    hide StringText, Sits;
    var t := StringText(ps);
    assert NameText(ps, true) == [QUOTE] + ((t + [QUOTE]) + [COLON]);
    SitsSplit(s, p, [QUOTE], (t + [QUOTE]) + [COLON]);
    SitsSplit(s, p + 1, t + [QUOTE], [COLON]);
    SitsSplit(s, p + 1, t, [QUOTE]);
    SitsAt(s, p, [QUOTE], 0);
    SitsAt(s, p + 1 + |t|, [QUOTE], 0);
    SitsAt(s, p + 2 + |t|, [COLON], 0);
  }

  /** The closing quote and the colon of a name of the object on top at `c`. */
  lemma {:induction false} NameEnds(comments: bool, s: seq<byte>, c: Control, b: Control, d: Control)
    requires Inside(s, c, true) && !c.needComma && InString(s, b) && b.ptr + 1 < |s| && s[b.ptr] == QUOTE && s[b.ptr + 1] == COLON
    requires b == c.(ptr := b.ptr, str := true, text := b.text) && d == b.(ptr := b.ptr + 2, str := false, seek := true)
    ensures Seeking(s, d)
    ensures |b.text| <= LIMIT ==> Run(true, comments, s, b) == Prepend([Key(Top(c).id, b.text)], Run(true, comments, s, d))
  {
    hide Run, Nested, Numbered, Finish;
    var e := b.(ptr := b.ptr + 1, str := false, seek := true, needColon := true);
    assert Proper(true, s, e) && Proper(true, s, d) && d == e.(ptr := e.ptr + 1, needColon := false);
    if |b.text| <= LIMIT {
      NameCloses(comments, s, b, e);
      ColonStep(comments, s, e, d);
    }
  }

  lemma {:induction false} NameOpens(comments: bool, s: seq<byte>, c: Control, a: Control)
    requires Inside(s, c, true) && !c.needComma && c.ptr < |s| && s[c.ptr] == QUOTE && a == c.(ptr := c.ptr + 1, str := true, text := [])
    ensures InString(s, a) && Run(true, comments, s, c) == Run(true, comments, s, a)
  {
    hide Nested, Numbered, Finish, Run;
    NoEvents(comments, s, c, a);
  }

  lemma {:induction false} NameCloses(comments: bool, s: seq<byte>, b: Control, e: Control)
    requires InString(s, b) && b.ptr < |s| && s[b.ptr] == QUOTE && |b.text| <= LIMIT && Top(b).kind == Obj
    requires e == b.(ptr := b.ptr + 1, str := false, seek := true, needColon := true) && Proper(true, s, e)
    ensures Run(true, comments, s, b) == Prepend([Key(Top(b).id, b.text)], Run(true, comments, s, e))
  {
    hide Nested, Numbered, Finish, Run;
    RunStep(comments, s, b, e, [Key(Top(b).id, b.text)]);
  }

  lemma {:induction false} ColonStep(comments: bool, s: seq<byte>, e: Control, d: Control)
    requires Proper(true, s, e) && e.seek && e.needColon && !e.needComma && !e.str && !e.done && !e.line && !e.block
    requires e.ptr < |s| && s[e.ptr] == COLON && d == e.(ptr := e.ptr + 1, needColon := false) && Proper(true, s, d)
    ensures Run(true, comments, s, e) == Run(true, comments, s, d)
  {
    hide Nested, Numbered, Finish, Run;
    NoEvents(comments, s, e, d);
  }

  /** The parent of a value that was complete. */
  function Parent(c: Control, e: Control, named: bool): Control
    requires c.path != []
  {
    var m := |c.path| - 1;
    e.(path := c.path[m := c.path[m].(count := c.path[m].count + 1)], needComma := true, seek := !named)
  }

  lemma {:induction false} ItemFinishes(comments: bool, s: seq<byte>, c: Control, e: Control, named: bool)
    requires Proper(true, s, c) && c.path != [] && Top(c).kind == (if named then Obj else Arr) && Complete(s, c, e, e.ptr, e.made)
    ensures var f := Parent(c, e, named);
            && Inside(s, f, named) && f.needComma
            && RunFinish(comments, s, e)
            == if Top(c).count < LIMIT then Prepend([Child(Top(c).id, c.made)], Run(true, comments, s, f)) else None
  {
    hide Run;
    var n, f := |e.path|, Parent(c, e, named);
    FinishProper(true, s, e);
    assert e.path[n - 2] == e.path[..|c.path|][n - 2] == Top(c);
    assert e.path[..n - 2] == c.path[..|c.path| - 1];
    assert Finish(e) == if Top(c).count < LIMIT then More(f, [Child(Top(c).id, c.made)]) else Rejected;
    ParentProper(s, c, e, named);
  }

  lemma {:induction false} ParentProper(s: seq<byte>, c: Control, e: Control, named: bool)
    requires Proper(true, s, c) && c.path != [] && Top(c).kind == (if named then Obj else Arr) && Complete(s, c, e, e.ptr, e.made)
    ensures Inside(s, Parent(c, e, named), named)
  {
    forall i | 0 <= i < |c.path| ensures c.path[i].id < e.made { assert e.path[..|c.path|][i] == e.path[i]; }
  }

  /** The bracket that ends an array or an object. */
  lemma {:induction false} CloseRuns(comments: bool, s: seq<byte>, f: Control, named: bool)
    requires Inside(s, f, named) && f.ptr < |s| && s[f.ptr] == (if named then RBRACE else RBRACKET)
    ensures var e := f.(ptr := f.ptr + 1, needComma := false, seek := false);
            Finishing(s, e) && Run(true, comments, s, f) == RunFinish(comments, s, e)
  {
    hide Finish, Nested, Numbered;
    var e := f.(ptr := f.ptr + 1, needComma := false, seek := false);
    FinishProper(true, s, e);
    assert Step(true, comments, s, f) == Finish(e);
  }

  lemma {:induction false} CommaRuns(comments: bool, s: seq<byte>, f: Control, named: bool)
    requires Inside(s, f, named) && f.needComma && f.ptr < |s| && s[f.ptr] == COMMA
    ensures var g := f.(ptr := f.ptr + 1, needComma := false);
            Inside(s, g, named) && Run(true, comments, s, f) == Run(true, comments, s, g)
  {
    hide Finish, Nested, Numbered, Run;
    NoEvents(comments, s, f, f.(ptr := f.ptr + 1, needComma := false));
  }

  // ----- whole values -----

  /** The bracket that begins an array or an object. */
  lemma {:induction false} OpenRuns(comments: bool, s: seq<byte>, c: Control, named: bool) returns (d: Control)
    requires Seeking(s, c) && c.ptr < |s| && s[c.ptr] == (if named then LBRACE else LBRACKET)
    ensures Inside(s, d, named) && !d.needComma && d.ptr == c.ptr + 1 && d.made == c.made + 1
    ensures d.path == c.path + [Open(c.made, if named then Obj else Arr, 0)]
    ensures Run(true, comments, s, c) == Prepend([New(c.made, if named then Obj else Arr)], Run(true, comments, s, d))
  {
    hide Nested, Numbered, Run, Finish;
    var k := if named then Obj else Arr;
    OpenNests(c, k);
    d := Create(c.(seek := false), k).(ptr := c.ptr + 1, seek := !named);
    assert Step(true, comments, s, c) == More(d, [New(c.made, k)]);
    RunStep(comments, s, c, d, [New(c.made, k)]);
  }

  /** The items that began at `c` are complete at `e`. */
  ghost predicate AllComplete(s: seq<byte>, c: Control, e: Control, ptr: nat, made: nat) {
    && Finishing(s, e) && !e.escaped && !e.needColon && e.ptr == ptr && e.made == made
    && |e.path| == |c.path| > 0 && e.path[..|c.path| - 1] == c.path[..|c.path| - 1] && Top(e).id == Top(c).id
  }

  function Closing(named: bool): byte { if named then RBRACE else RBRACKET }

  function RestText(items: Items, named: bool): seq<byte>
    requires items.Item? && LegalItems(items)
  {
    if items.rest.End? then [Closing(named)] else [COMMA] + (ItemsText(items.rest, named) + [Closing(named)])
  }

  lemma {:induction false} TextOfItems(items: Items, named: bool)
    requires items.Item? && LegalItems(items)
    ensures ItemsText(items, named) + [Closing(named)] == NameText(items.name, named) + (DocText(items.value) + RestText(items, named))
  {
    hide DocText, NameText;
    var n, v := NameText(items.name, named), DocText(items.value);
    if items.rest.End? {
      assert ItemsText(items, named) == n + (v + []);
    } else {
      var more := ItemsText(items.rest, named);
      assert ItemsText(items, named) + [Closing(named)] == n + (v + ([COMMA] + more)) + [Closing(named)];
    }
  }

  /** Reading a value as it is written makes it; a value that is not readable is refused. */
  lemma {:induction false} ValueRuns(comments: bool, s: seq<byte>, c: Control, d: Doc) returns (e: Control)
    requires Seeking(s, c) && LegalDoc(d) && Sits(s, c.ptr, DocText(d)) && Closes(At(s, c.ptr + |DocText(d)|))
    ensures Readable(d) ==> Complete(s, c, e, c.ptr + |DocText(d)|, c.made + Values(d))
                            && Run(true, comments, s, c) == Prepend(Made(d, c.made), RunFinish(comments, s, e))
    ensures !Readable(d) ==> Run(true, comments, s, c) == None
    decreases d
  {
    hide Run, RunFinish, Proper, Seeking, Complete, DocText, Readable, Made, Values, Prepend, Closes, Finishing;
    hide NumberText, StringText, StringTaken, ItemsText, MadeItems, ItemValues, ReadableItems, ReadableNumber, Size, LegalNumber;
    match d
    case Null =>
      WordIs(d, c.made);
      e := WordRuns(comments, s, c, NULL);
    case Truth(b) =>
      WordIs(d, c.made);
      e := WordRuns(comments, s, c, if b then TRUE else FALSE);
    case Numeral(l) =>
      NumeralIs(l, c.made);
      e := NumberRuns(comments, s, c, l);
    case Quoted(ps) =>
      QuotedIs(ps, c.made);
      e := QuotedRuns(comments, s, c, ps);
    case Sequence(items) =>
      HolderIs(items, c.made);
      e := HolderRuns(comments, s, c, items, false);
    case Dictionary(items) =>
      HolderIs(items, c.made);
      e := HolderRuns(comments, s, c, items, true);
  }

  lemma {:induction false} WordIs(d: Doc, k: nat)
    requires d.Null? || d.Truth?
    ensures LegalDoc(d) && Readable(d) && Values(d) == 1 && Made(d, k) == [New(k, Scalar)]
    ensures DocText(d) == if d.Null? then NULL else if d.b then TRUE else FALSE
  {}

  lemma {:induction false} NumeralIs(l: Literal, k: nat)
    requires LegalNumber(l)
    ensures var d := Numeral(l);
            LegalDoc(d) && DocText(d) == NumberText(l) && Values(d) == 1 && Made(d, k) == [New(k, Number(NEW_NUMBER))]
            && Readable(d) == ReadableNumber(l)
  {}

  lemma {:induction false} QuotedIs(ps: seq<Piece>, k: nat)
    requires AllLegal(ps)
    ensures var d := Quoted(ps);
            LegalDoc(d) && DocText(d) == [QUOTE] + (StringText(ps) + [QUOTE]) && Values(d) == 1
            && Made(d, k) == [New(k, Str), Text(k, StringTaken(ps))] && Readable(d) == (|StringTaken(ps)| <= LIMIT)
  {}

  lemma {:induction false} HolderIs(items: Items, k: nat)
    requires LegalItems(items)
    ensures var d := Sequence(items);
            LegalDoc(d) && DocText(d) == [LBRACKET] + (ItemsText(items, false) + [RBRACKET]) && Values(d) == 1 + ItemValues(items)
            && Made(d, k) == [New(k, Arr)] + MadeItems(items, false, k, k + 1)
            && Readable(d) == (Size(items) <= LIMIT && ReadableItems(items, false))
    ensures var d := Dictionary(items);
            LegalDoc(d) && DocText(d) == [LBRACE] + (ItemsText(items, true) + [RBRACE]) && Values(d) == 1 + ItemValues(items)
            && Made(d, k) == [New(k, Obj)] + MadeItems(items, true, k, k + 1)
            && Readable(d) == (Size(items) <= LIMIT && ReadableItems(items, true))
  {}

  lemma {:induction false} HolderRuns(comments: bool, s: seq<byte>, c: Control, items: Items, named: bool) returns (e: Control)
    requires Seeking(s, c) && LegalItems(items)
    requires Sits(s, c.ptr, [if named then LBRACE else LBRACKET] + (ItemsText(items, named) + [Closing(named)]))
    ensures var k := if named then Obj else Arr; var ok := Size(items) <= LIMIT && ReadableItems(items, named);
            && (ok ==> && Complete(s, c, e, c.ptr + |ItemsText(items, named)| + 2, c.made + 1 + ItemValues(items))
                       && Run(true, comments, s, c)
                       == Prepend([New(c.made, k)] + MadeItems(items, named, c.made, c.made + 1), RunFinish(comments, s, e)))
            && (!ok ==> Run(true, comments, s, c) == None)
    decreases items, 3
  {
    hide Run, RunFinish, Proper, Seeking, Inside, ItemsText, ReadableItems, MadeItems, Finishing;
    var k, open := if named then Obj else Arr, if named then LBRACE else LBRACKET;
    var t := ItemsText(items, named);
    SitsSplit(s, c.ptr, [open], t + [Closing(named)]);
    SitsAt(s, c.ptr, [open], 0);
    var d := OpenRuns(comments, s, c, named);
    if items.End? {
      NoItems(named, c.made);
      assert [] + [Closing(named)] == [Closing(named)];
      SitsAt(s, c.ptr + 1, [Closing(named)], 0);
      CloseRuns(comments, s, d, named);
      e := d.(ptr := d.ptr + 1, needComma := false, seek := false);
      InsideMeans(s, d, named);
      assert [New(c.made, k)] + [] == [New(c.made, k)];
    } else {
      InsideMeans(s, d, named);
      e := ItemsRuns(comments, s, d, items, named);
      if Size(items) <= LIMIT && ReadableItems(items, named) {
        PrependTwice([New(c.made, k)], MadeItems(items, named, c.made, c.made + 1), RunFinish(comments, s, e));
      }
    }
  }

  lemma {:induction false} InsideMeans(s: seq<byte>, d: Control, named: bool)
    requires Inside(s, d, named)
    ensures d.path != [] && !d.escaped && !d.needColon
  {}

  lemma {:induction false} NoItems(named: bool, k: nat)
    ensures LegalItems(End) && ItemsText(End, named) == [] && ReadableItems(End, named) && MadeItems(End, named, k, k + 1) == []
  {}

  lemma {:induction false} ItemsRuns(comments: bool, s: seq<byte>, c: Control, items: Items, named: bool) returns (e: Control)
    requires Inside(s, c, named) && !c.needComma && items.Item? && LegalItems(items) && Sits(s, c.ptr, ItemsText(items, named) + [Closing(named)])
    ensures c.path != []
    ensures var ok := Top(c).count + Size(items) <= LIMIT && ReadableItems(items, named);
            && (ok ==> && AllComplete(s, c, e, c.ptr + |ItemsText(items, named)| + 1, c.made + ItemValues(items))
                       && Run(true, comments, s, c) == Prepend(MadeItems(items, named, Top(c).id, c.made), RunFinish(comments, s, e)))
            && (!ok ==> Run(true, comments, s, c) == None)
    decreases items, 2
  {
    hide Run, RunFinish, Proper, Seeking, Inside, Finishing, ItemsText, DocText, NameText, RestText, Readable, Made, ReadableItems, MadeItems;
    hide Sits, Closes, StringTaken, LegalDoc;
    InsideMeans(s, c, named);
    var name, text := NameText(items.name, named), DocText(items.value);
    TextOfItems(items, named);
    SitsSplit(s, c.ptr, name, text + RestText(items, named));
    SitsSplit(s, c.ptr + |name|, text, RestText(items, named));
    e := c;
    var d := FirstOfItem(comments, s, c, items, named);
    RestCloses(s, d.ptr + |text|, items, named);
    var e1 := ValueRuns(comments, s, d, items.value);
    if Readable(items.value) {
      SeekingMeans(s, d);
      InsideKind(s, c, named);
      ItemFinishes(comments, s, d, e1, named);
      var f := Parent(d, e1, named);
      if Top(c).count < LIMIT {
        e := RestRuns(comments, s, c, f, items, named);
        if Top(f).count + Size(items.rest) <= LIMIT && ReadableItems(items.rest, named) {
          ItemsTogether(items, named, Top(c).id, c.made, RunFinish(comments, s, e));
        }
      }
    }
    ItemsReadable(items, named);
  }

  lemma {:induction false} ItemsReadable(items: Items, named: bool)
    requires items.Item? && LegalItems(items)
    ensures ReadableItems(items, named) <==>
            (named ==> |StringTaken(items.name)| <= LIMIT) && Readable(items.value) && ReadableItems(items.rest, named)
  {
    hide Readable;
  }

  lemma {:induction false} ItemsTogether(items: Items, named: bool, parent: nat, k: nat, r: Option<seq<Event>>)
    requires items.Item? && LegalItems(items)
    ensures Prepend(MadeItems(items, named, parent, k), r)
         == Prepend(if named then [Key(parent, StringTaken(items.name))] else [],
                    Prepend(Made(items.value, k),
                            Prepend([Child(parent, k)], Prepend(MadeItems(items.rest, named, parent, k + Values(items.value)), r))))
  {
    hide Made, StringTaken;
    var key := if named then [Key(parent, StringTaken(items.name))] else [];
    var value, child := Made(items.value, k), [Child(parent, k)];
    var rest := MadeItems(items.rest, named, parent, k + Values(items.value));
    assert r.Some? ==> key + (value + (child + (rest + r.value))) == (key + (value + (child + rest))) + r.value;
  }

  /** What comes after an item: the end, or a comma and more items. */
  lemma {:induction false} RestRuns(comments: bool, s: seq<byte>, c: Control, f: Control, items: Items, named: bool) returns (e: Control)
    requires items.Item? && LegalItems(items) && Inside(s, f, named) && f.needComma && Sits(s, f.ptr, RestText(items, named))
    requires |f.path| == |c.path| > 0 && f.path[..|c.path| - 1] == c.path[..|c.path| - 1] && Top(f).id == Top(c).id
    requires Top(f).count <= LIMIT
    ensures var ok := Top(f).count + Size(items.rest) <= LIMIT && ReadableItems(items.rest, named);
            && (ok ==> && AllComplete(s, c, e, f.ptr + |RestText(items, named)|, f.made + ItemValues(items.rest))
                       && Run(true, comments, s, f) == Prepend(MadeItems(items.rest, named, Top(c).id, f.made), RunFinish(comments, s, e)))
            && (!ok ==> Run(true, comments, s, f) == None)
    decreases items, 1
  {
    hide Run, RunFinish, Proper, Inside, ItemsText, ReadableItems, MadeItems, Finishing;
    InsideMeans(s, f, named);
    SitsAt(s, f.ptr, RestText(items, named), 0);
    if items.rest.End? {
      CloseRuns(comments, s, f, named);
      e := f.(ptr := f.ptr + 1, needComma := false, seek := false);
      NoRest(named, Top(c).id, f.made);
      var r := RunFinish(comments, s, e);
      assert r.Some? ==> [] + r.value == r.value;
    } else {
      SitsSplit(s, f.ptr, [COMMA], ItemsText(items.rest, named) + [Closing(named)]);
      CommaRuns(comments, s, f, named);
      var g := f.(ptr := f.ptr + 1, needComma := false);
      e := ItemsRuns(comments, s, g, items.rest, named);
    }
  }

  lemma {:induction false} NoRest(named: bool, parent: nat, k: nat)
    ensures ReadableItems(End, named) && MadeItems(End, named, parent, k) == []
  {}

  lemma {:induction false} SeekingMeans(s: seq<byte>, d: Control)
    requires Seeking(s, d)
    ensures Proper(true, s, d)
  {}

  lemma {:induction false} InsideKind(s: seq<byte>, c: Control, named: bool)
    requires Inside(s, c, named)
    ensures c.path != [] && Top(c).kind == if named then Obj else Arr
  {}

  /** The name of an item, if it has one. */
  lemma {:induction false} FirstOfItem(comments: bool, s: seq<byte>, c: Control, items: Items, named: bool) returns (d: Control)
    requires Inside(s, c, named) && !c.needComma && items.Item? && LegalItems(items) && Sits(s, c.ptr, NameText(items.name, named))
    ensures c.path != [] && Seeking(s, d) && d.path == c.path && d.made == c.made && d.ptr == c.ptr + |NameText(items.name, named)|
    ensures Run(true, comments, s, c)
         == if named && |StringTaken(items.name)| > LIMIT then None
            else Prepend(if named then [Key(Top(c).id, StringTaken(items.name))] else [], Run(true, comments, s, d))
  {
    hide Run, Nested, Numbered, StringTaken;
    if named {
      d := NameRuns(comments, s, c, items.name);
    } else {
      d := c;
      var r := Run(true, comments, s, c);
      assert r.Some? ==> [] + r.value == r.value;
    }
  }

  lemma {:induction false} RestCloses(s: seq<byte>, p: nat, items: Items, named: bool)
    requires items.Item? && LegalItems(items) && Sits(s, p, RestText(items, named))
    ensures Closes(At(s, p))
  {
    hide ItemsText;
    SitsAt(s, p, RestText(items, named), 0);
  }

  // ----- whole texts -----

  /** A document as written is accepted exactly if it is readable, and then it makes exactly its
      values. */
  lemma {:induction false} DocRuns(comments: bool, d: Doc)
    requires LegalDoc(d)
    ensures Proper(true, DocText(d), START)
    ensures Run(true, comments, DocText(d), START) == if Readable(d) then Some(Made(d, 0)) else None
  {
    hide Run, Proper, DocText, Made, Readable;
    var s := DocText(d);
    StartProper(true, s);
    assert s[0..0 + |s|] == s;
    var e := ValueRuns(comments, s, START, d);
    if Readable(d) {
      RootFinishes(comments, s, e);
      assert Made(d, 0) + [] == Made(d, 0);
    }
  }

  lemma {:induction false} RootFinishes(comments: bool, s: seq<byte>, e: Control)
    requires Finishing(s, e) && |e.path| == 1 && e.ptr == |s|
    ensures RunFinish(comments, s, e) == Some([])
  {
    FinishProper(true, s, e);
    var f := e.(path := [], needComma := true, done := true);
    assert Finish(e) == More(f, []);
    assert Step(true, comments, s, f) == Accepted;
    assert Run(true, comments, s, f) == Some([]);
    assert [] + Run(true, comments, s, f).value == [];
  }

  /** No document begins with a byte-order mark. */
  lemma {:induction false} NoMark(d: Doc)
    requires LegalDoc(d)
    ensures DocText(d) != [] && DocText(d)[0] < 128
  {
    hide ItemsText, StringText, FractionText, ExponentText;
    if d.Numeral? { assert NumberText(d.l) == (if d.l.negative then [MINUS] else []) + (d.l.whole + (FractionText(d.l.fraction) + ExponentText(d.l.exponent))); }
  }
}
