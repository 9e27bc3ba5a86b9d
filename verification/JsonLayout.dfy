/** The block of a JSON object holds its entries and behind them its names, and where the
    names begin is kept in an int. This is right exactly for entries of less than 2^31
    bytes. */
module JsonLayout {
  import opened Basics
  import opened Json
  import opened JsonTrace
  import opened JsonMembers
  import opened JsonMemory

  // ----- what the second pass writes -----

  /** Event `i` writes byte `o` of the block of object `id` as part of an entry: a name fills the
      first two fields of the next entry, a value the last. */
  ghost predicate EntryWrite(t: seq<Event>, id: nat, i: nat, o: int) {
    && i < |t| && t[i].id == id
    && var at := EntryAt(|Children(t[..i], id)|);
       (t[i].Key? && at <= o < at + 12) || (t[i].Child? && at + 16 <= o < at + 24)
  }

  /** Event `i` writes byte `o` of the block as part of a name or its zero. */
  ghost predicate NameWrite(t: seq<Event>, id: nat, i: nat, o: int) {
    && i < |t| && t[i].id == id && t[i].Key?
    && var at := NamesAt(|Children(t, id)|) + |KeyBytes(t[..i], id)|; at <= o <= at + |t[i].w|
  }

  /** How many bytes are asked for. */
  ghost function BlockSize(t: seq<Event>, id: nat): int { NamesAt(|Children(t, id)|) + |KeyBytes(t, id)| }

  ghost predicate InBlock(t: seq<Event>, id: nat) {
    forall i: nat, o: int :: EntryWrite(t, id, i, o) || NameWrite(t, id, i, o) ==> 0 <= o < BlockSize(t, id)
  }

  ghost predicate Separate(t: seq<Event>, id: nat) {
    forall i: nat, j: nat, o: int :: EntryWrite(t, id, i, o) ==> !NameWrite(t, id, j, o)
  }

  // ----- they stay inside and apart -----

  lemma {:induction false} Split(t: seq<Event>, i: nat)
    requires i < |t|
    ensures t == t[..i] + [t[i]] + t[i + 1..]
  {}

  lemma {:induction false} EntriesBelow(t: seq<Event>, id: nat, i: nat, o: int)
    requires Matched(t) && Object(t, id) && EntryWrite(t, id, i, o)
    ensures 0 <= o < EntryAt(|Children(t, id)|)
  {
    hide Children, Matched;
    Split(t, i);
    if t[i].Key? { NamesNext(t[..i], t[i], t[i + 1..], t); }
    else {
      ChildrenAppend(t[..i] + [t[i]], t[i + 1..], id);
      Adds(t[..i], t[i], id);
    }
  }

  lemma {:induction false} NamesAbove(t: seq<Event>, id: nat, i: nat, o: int)
    requires NameWrite(t, id, i, o)
    ensures NamesAt(|Children(t, id)|) <= o < BlockSize(t, id)
  {
    hide Children, KeyBytes;
    Split(t, i);
    KeyBytesAppend(t[..i] + [t[i]], t[i + 1..], id);
    Adds(t[..i], t[i], id);
  }

  lemma {:induction false} SafeIfSmall(t: seq<Event>, id: nat)
    requires Matched(t) && Object(t, id) && EntryAt(|Children(t, id)|) <= 2147483647
    ensures InBlock(t, id) && Separate(t, id)
  {
    hide EntryWrite, NameWrite, Children, KeyBytes, Matched;
    forall i: nat, o: int | EntryWrite(t, id, i, o) ensures 0 <= o < NamesAt(|Children(t, id)|) <= BlockSize(t, id) {
      EntriesBelow(t, id, i, o);
    }
    forall i: nat, o: int | NameWrite(t, id, i, o) ensures 0 <= NamesAt(|Children(t, id)|) <= o < BlockSize(t, id) {
      NamesAbove(t, id, i, o);
    }
  }

  // ----- unless the entries are too large -----

  /** The event that puts value `j` into `id`. */
  lemma {:induction false} ChildEvent(t: seq<Event>, id: nat, j: nat) returns (i: nat)
    requires j < |Children(t, id)|
    ensures i < |t| && t[i].id == id && t[i].Child? && |Children(t[..i], id)| == j
  {
    var n := |t| - 1;
    if |Children(t[..n], id)| == j { i := n; }
    else {
      i := ChildEvent(t[..n], id, j);
      assert t[..n][..i] == t[..i];
    }
  }

  /** The event that gives `id` its name `j`. */
  lemma {:induction false} NameEvent(t: seq<Event>, id: nat, j: nat) returns (i: nat)
    requires j < |Labels(t, id)|
    ensures i < |t| && t[i].id == id && t[i].Key? && |Labels(t[..i], id)| == j && (j == 0 ==> KeyBytes(t[..i], id) == [])
  {
    var n := |t| - 1;
    if |Labels(t[..n], id)| == j {
      i := n;
      if j == 0 { NoNames(t[..n], id); }
    } else {
      i := NameEvent(t[..n], id, j);
      assert t[..n][..i] == t[..i];
    }
  }

  lemma {:induction false} NoNames(t: seq<Event>, id: nat)
    requires Labels(t, id) == []
    ensures KeyBytes(t, id) == []
  {
    if t != [] { NoNames(t[..|t| - 1], id); }
  }

  lemma {:induction false} Eighth(o: nat, n: nat) returns (j: nat, r: nat)
    requires o < EntryAt(n) && o % 8 == 0
    ensures o == EntryAt(j) + r && j < n && (r == 0 || r == 8 || r == 16)
  {
    j, r := o / 24, o % 24;
    var k := o / 8;
    assert o == 8 * k && k == 3 * j + r / 8;
  }

  /** Every eighth byte of the entries is written. */
  lemma {:induction false} EntryWritten(t: seq<Event>, id: nat, o: nat) returns (i: nat)
    requires Matched(t) && Object(t, id) && o < EntryAt(|Children(t, id)|) && o % 8 == 0
    ensures EntryWrite(t, id, i, o)
  {
    hide Children, Labels, KeyBytes, Lead;
    var j, r := Eighth(o, |Children(t, id)|);
    if r == 16 {
      i := ChildEvent(t, id, j);
    } else {
      LeadIs(t, id);
      i := NameEvent(t, id, j);
      assert Lead(t[..i], id) == 0;
      LeadIs(t[..i], id);
    }
  }

  /** An int that cannot hold the size of the entries falls back among them, or below zero. */
  lemma {:induction false} NamesBack(n: nat)
    requires EntryAt(n) > 2147483647
    ensures NamesAt(n) < EntryAt(n) && NamesAt(n) % 8 == 0
  {
    var m := EntryAt(n) % 4294967296;
    var q := EntryAt(n) / 4294967296;
    assert m == 8 * (3 * n - 536870912 * q);
  }

  /** The first byte of the first name strays: it lies before the block or in an entry. */
  lemma {:induction false} Strays(t: seq<Event>, id: nat) returns (i: nat)
    requires Matched(t) && TooLarge(t, id)
    ensures var at := NamesAt(|Children(t, id)|);
            NameWrite(t, id, i, at) && (at < 0 || exists j: nat :: EntryWrite(t, id, j, at))
  {
    hide Children, Labels, KeyBytes, Lead, EntryWrite, NamesAt;
    var at := NamesAt(|Children(t, id)|);
    LeadIs(t, id);
    i := NameEvent(t, id, 0);
    NamesBack(|Children(t, id)|);
    if at >= 0 {
      var j := EntryWritten(t, id, at);
    }
  }

  /** For every accepted text and every object in it: all that is written to its block lies
      inside, entries and names apart, if and only if the entries take less than 2^31 bytes. */
  lemma {:induction false} SafeIff(comments: bool, s: seq<byte>, t: seq<Event>, id: nat)
    requires Proper(true, s, START) && Run(true, comments, s, START) == Some(t) && Object(t, id)
    ensures InBlock(t, id) && Separate(t, id) <==> EntryAt(|Children(t, id)|) <= 2147483647
  {
    hide Run, EntryWrite, NameWrite, Children, KeyBytes, Matched;
    NamesAndValues(comments, s, t);
    if EntryAt(|Children(t, id)|) <= 2147483647 { SafeIfSmall(t, id); }
    else { var i := Strays(t, id); }
  }

  // ----- an object of so many members -----

  const MEMBER: seq<byte> := [QUOTE, QUOTE, COLON, 110, 117, 108, 108, COMMA]

  /** An object of `n` members, each with an empty name and `null`. */
  function Nulls(n: nat): (s: seq<byte>)
    ensures |s| == 8 * n + 1
  {
    seq(8 * n + 1, i requires 0 <= i < 8 * n + 1 => if i == 0 then LBRACE else if i == 8 * n then RBRACE else MEMBER[(i - 1) % 8])
  }

  /** What reading its first `i` members does. */
  function NullsTrace(i: nat): seq<Event> {
    if i == 0 then [New(0, Obj)] else NullsTrace(i - 1) + [Key(0, []), New(i, Scalar), Child(0, i)]
  }

  lemma {:induction false} NullsCount(i: nat)
    ensures var t := NullsTrace(i); |Children(t, 0)| == i && |KeyBytes(t, 0)| == i && New(0, Obj) in t
  {
    if i == 0 {
      Adds([], New(0, Obj), 0);
      assert [] + [New(0, Obj)] == [New(0, Obj)];
    } else {
      NullsCount(i - 1);
      var t := NullsTrace(i - 1);
      Adds(t, Key(0, []), 0);
      Adds(t + [Key(0, [])], New(i, Scalar), 0);
      Adds(t + [Key(0, [])] + [New(i, Scalar)], Child(0, i), 0);
      assert NullsTrace(i) == t + [Key(0, [])] + [New(i, Scalar)] + [Child(0, i)];
    }
  }

  /** After `i` members, at `ptr`, with these flags. */
  function Within(i: nat, ptr: nat, needComma: bool, needColon: bool, seek: bool, str: bool): Control {
    Control(ptr, [Open(0, Obj, i)], i + 1, [], needComma, needColon, seek, str, false, false, false, false)
  }

  lemma {:induction false} WithinProper(s: seq<byte>, i: nat, ptr: nat, needComma: bool, needColon: bool, seek: bool, str: bool)
    requires ptr <= |s| && !(seek && str)
    ensures Proper(true, s, Within(i, ptr, needComma, needColon, seek, str))
  {}

  lemma {:induction false} NullsAt(n: nat, i: nat)
    requires i < n
    ensures var s, p := Nulls(n), 8 * i + 1;
            && s[0] == LBRACE && s[p] == QUOTE && s[p + 1] == QUOTE && s[p + 2] == COLON && Word(s, p + 3, NULL)
            && s[p + 7] == if i + 1 < n then COMMA else RBRACE
  {
    hide Nulls, Word;
    NullsByte(n, i, 0);
    NullsByte(n, i, 1);
    NullsByte(n, i, 2);
    NullsWord(n, i);
    if i + 1 < n { NullsByte(n, i, 7); }
    NullsEnds(n);
  }

  lemma {:induction false} NullsByte(n: nat, i: nat, k: nat)
    requires i < n && k < 8 && 8 * i + 1 + k < 8 * n
    ensures Nulls(n)[8 * i + 1 + k] == MEMBER[k]
  {
    assert (8 * i + k) % 8 == k;
  }

  lemma {:induction false} NullsEnds(n: nat)
    requires n > 0
    ensures Nulls(n)[0] == LBRACE && Nulls(n)[8 * n] == RBRACE
  {}

  lemma {:induction false} NullsWord(n: nat, i: nat)
    requires i < n
    ensures Word(Nulls(n), 8 * i + 4, NULL)
  {
    hide Nulls;
    NullsByte(n, i, 3);
    NullsByte(n, i, 4);
    NullsByte(n, i, 5);
    NullsByte(n, i, 6);
    assert Nulls(n)[8 * i + 4..8 * i + 8] == NULL;
  }

  /** Over one member. */
  lemma {:induction false} NullMember(comments: bool, n: nat, i: nat)
    requires i < n <= LIMIT
    ensures var s, p := Nulls(n), 8 * i + 1;
            var c, d := Within(i, p, false, false, false, false), Within(i + 1, p + 7, true, false, false, false);
            && Proper(true, s, c) && Proper(true, s, d)
            && var r := Run(true, comments, s, d);
               Run(true, comments, s, c) == if r.None? then None else Some([Key(0, []), New(i + 1, Scalar), Child(0, i + 1)] + r.value)
  {
    hide Run, Proper, Nulls, Step, Word;
    var s, p := Nulls(n), 8 * i + 1;
    NullsAt(n, i);
    var c0, c1 := Within(i, p, false, false, false, false), Within(i, p + 1, false, false, false, true);
    var c2, c3 := Within(i, p + 2, false, true, true, false), Within(i, p + 3, false, false, true, false);
    var c4 := Within(i + 1, p + 7, true, false, false, false);
    WithinProper(s, i, p, false, false, false, false);
    WithinProper(s, i, p + 1, false, false, false, true);
    WithinProper(s, i, p + 2, false, true, true, false);
    WithinProper(s, i, p + 3, false, false, true, false);
    WithinProper(s, i + 1, p + 7, true, false, false, false);
    NameSteps(comments, s, i, p);
    RunStep(comments, s, c0, c1, []);
    RunStep(comments, s, c1, c2, [Key(0, [])]);
    RunStep(comments, s, c2, c3, []);
    NullStep(comments, s, i, p + 3);
    RunStep(comments, s, c3, c4, [New(i + 1, Scalar), Child(0, i + 1)]);
    var r := Run(true, comments, s, c4);
    if r.Some? {
      assert [] + ([Key(0, [])] + ([] + ([New(i + 1, Scalar), Child(0, i + 1)] + r.value)))
          == [Key(0, []), New(i + 1, Scalar), Child(0, i + 1)] + r.value;
    }
  }

  lemma {:induction false} NameSteps(comments: bool, s: seq<byte>, i: nat, p: nat)
    requires p + 3 <= |s| && s[p] == QUOTE && s[p + 1] == QUOTE && s[p + 2] == COLON
    requires Proper(true, s, Within(i, p, false, false, false, false)) && Proper(true, s, Within(i, p + 1, false, false, false, true))
    requires Proper(true, s, Within(i, p + 2, false, true, true, false))
    ensures Step(true, comments, s, Within(i, p, false, false, false, false)) == More(Within(i, p + 1, false, false, false, true), [])
    ensures Step(true, comments, s, Within(i, p + 1, false, false, false, true)) == More(Within(i, p + 2, false, true, true, false), [Key(0, [])])
    ensures Step(true, comments, s, Within(i, p + 2, false, true, true, false)) == More(Within(i, p + 3, false, false, true, false), [])
  {
    hide Proper, Escape, Finish, ValueTurn;
  }

  lemma {:induction false} NullStep(comments: bool, s: seq<byte>, i: nat, p: nat)
    requires i < LIMIT && Word(s, p, NULL) && Proper(true, s, Within(i, p, false, false, true, false))
    ensures Step(true, comments, s, Within(i, p, false, false, true, false))
         == More(Within(i + 1, p + 4, true, false, false, false), [New(i + 1, Scalar), Child(0, i + 1)])
  {
    hide Proper;
    assert s[p] == s[p..p + 4][0] == 110;
  }

  /** The states between members are reached with what came before. */
  lemma {:induction false} NullsUpTo(comments: bool, n: nat, i: nat)
    requires 0 < i <= n <= LIMIT
    ensures var s, d := Nulls(n), Within(i, 8 * i, true, false, false, false);
            && Proper(true, s, START) && Proper(true, s, d)
            && var r := Run(true, comments, s, d);
               Run(true, comments, s, START) == if r.None? then None else Some(NullsTrace(i) + r.value)
  {
    hide Run, Proper, Step, Nulls;
    var s, c, d := Nulls(n), Within(i - 1, 8 * (i - 1) + 1, false, false, false, false), Within(i, 8 * i, true, false, false, false);
    StartProper(true, s);
    NullMember(comments, n, i - 1);
    var three, r := [Key(0, []), New(i, Scalar), Child(0, i)], Run(true, comments, s, d);
    if i == 1 {
      NullsEnds(n);
      OpenStep(comments, s);
      RunStep(comments, s, START, c, [New(0, Obj)]);
      assert NullsTrace(1) == [New(0, Obj)] + three by { assert NullsTrace(0) == [New(0, Obj)]; }
      assert r.Some? ==> [New(0, Obj)] + (three + r.value) == NullsTrace(1) + r.value;
    } else {
      var before := Within(i - 1, 8 * (i - 1), true, false, false, false);
      NullsUpTo(comments, n, i - 1);
      NullsAt(n, i - 2);
      CommaStep(comments, s, i - 1, 8 * (i - 1));
      RunStep(comments, s, before, c, []);
      assert r.Some? ==> NullsTrace(i - 1) + ([] + (three + r.value)) == NullsTrace(i) + r.value;
    }
  }

  lemma {:induction false} OpenStep(comments: bool, s: seq<byte>)
    requires s != [] && s[0] == LBRACE && Proper(true, s, START)
    ensures Step(true, comments, s, START) == More(Within(0, 1, false, false, false, false), [New(0, Obj)])
  {
    hide Proper;
  }

  lemma {:induction false} CommaStep(comments: bool, s: seq<byte>, i: nat, p: nat)
    requires p < |s| && s[p] == COMMA && Proper(true, s, Within(i, p, true, false, false, false))
    ensures Step(true, comments, s, Within(i, p, true, false, false, false)) == More(Within(i, p + 1, false, false, false, false), [])
  {
    hide Proper, Finish;
  }

  /** The brace ends the object, and the text. */
  lemma {:induction false} NullsEnd(comments: bool, s: seq<byte>, n: nat, p: nat)
    requires p + 1 == |s| && s[p] == RBRACE
    ensures var c := Within(n, p, true, false, false, false); Proper(true, s, c) && Run(true, comments, s, c) == Some([])
  {
    hide Run;
    var c := Within(n, p, true, false, false, false);
    WithinProper(s, n, p, true, false, false, false);
    var d := c.(ptr := p + 1, path := [], needComma := true, done := true);
    Last(comments, s, d);
    BraceStep(comments, s, n, p);
    RunStep(comments, s, c, d, []);
    assert [] + Run(true, comments, s, d).value == [];
  }

  lemma {:induction false} BraceStep(comments: bool, s: seq<byte>, n: nat, p: nat)
    requires p + 1 == |s| && s[p] == RBRACE && Proper(true, s, Within(n, p, true, false, false, false))
    ensures Step(true, comments, s, Within(n, p, true, false, false, false))
         == More(Control(p + 1, [], n + 1, [], true, false, false, false, false, true, false, false), [])
  {
    hide Proper;
  }

  lemma {:induction false} Last(comments: bool, s: seq<byte>, d: Control)
    requires Proper(true, s, d) && d.done && d.ptr == |s| && !d.str && !d.line && !d.block
    ensures Run(true, comments, s, d) == Some([])
  {}

  /** An object of any number of members up to the limit is accepted. */
  lemma {:induction false} NullsAccepted(comments: bool, n: nat)
    requires 0 < n <= LIMIT
    ensures Proper(true, Nulls(n), START) && Run(true, comments, Nulls(n), START) == Some(NullsTrace(n))
    ensures var t := NullsTrace(n); Object(t, 0) && |Children(t, 0)| == n && |KeyBytes(t, 0)| == n
  {
    hide Run, Proper, Nulls, NullsTrace, Within;
    NullsUpTo(comments, n, n);
    NullsEnds(n);
    NullsEnd(comments, Nulls(n), n, 8 * n);
    NullsCount(n);
    assert NullsTrace(n) + [] == NullsTrace(n);
  }

  /** If the first object is too large, that decides. */
  lemma {:induction false} OneOutcome(t: seq<Event>)
    requires TooLarge(t, 0)
    ensures forall r :: Outcome(r, t) <==> r == if BlockSize(t, 0) < 0 then Exhausted(0) else Misplaced(0)
  {
    hide TooLarge, Children, KeyBytes, Finished, NamesAt;
  }

  /** Two texts below 2^31 bytes that are accepted and then go wrong: in the first the names
      overlie the entries from byte 8 on, and for the second a negative number of bytes is
      asked for. */
  lemma {:induction false} LargeObjects(comments: bool)
    ensures |Nulls(178956971)| < 2147483648 && |Nulls(89478486)| < 2147483648
    ensures var t := NullsTrace(178956971);
            && Proper(true, Nulls(178956971), START) && Run(true, comments, Nulls(178956971), START) == Some(t)
            && NamesAt(|Children(t, 0)|) == 8 && (forall r :: Outcome(r, t) <==> r == Misplaced(0))
            && !(InBlock(t, 0) && Separate(t, 0))
    ensures var t := NullsTrace(89478486);
            && Proper(true, Nulls(89478486), START) && Run(true, comments, Nulls(89478486), START) == Some(t)
            && forall r :: Outcome(r, t) <==> r == Exhausted(0)
  {
    hide Run, Nulls, NullsTrace, Children, KeyBytes, Object, InBlock, Separate, Proper;
    NullsAccepted(comments, 178956971);
    NullsAccepted(comments, 89478486);
    SafeIff(comments, Nulls(178956971), NullsTrace(178956971), 0);
    OneOutcome(NullsTrace(178956971));
    OneOutcome(NullsTrace(89478486));
  }
}
