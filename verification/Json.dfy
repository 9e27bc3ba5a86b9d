/** The JSON reader. It goes over the text twice: the first pass checks it and counts what
    every value will need, the second allocates exactly that and fills it in. Numbers are
    parsed on the first pass and only skipped on the second. */
module Json {
  import opened Basics

  const LIMIT := 4294967287

  const QUOTE: byte := 34
  const BACKSLASH: byte := 92
  const SLASH: byte := 47
  const STAR: byte := 42
  const COMMA: byte := 44
  const COLON: byte := 58
  const MINUS: byte := 45
  const PLUS: byte := 43
  const DOT: byte := 46
  const LBRACKET: byte := 91
  const RBRACKET: byte := 93
  const LBRACE: byte := 123
  const RBRACE: byte := 125
  const NEWLINE: byte := 10
  const RETURN: byte := 13

  predicate IsSpace(b: byte) { b == 10 || b == 32 || b == 9 || b == 13 }

  predicate IsDigit(b: byte) { 48 <= b <= 57 }

  predicate IsExponent(b: byte) { b == 101 || b == 69 }

  /** What the second pass skips as part of a number. */
  predicate InNumber(b: byte) { IsDigit(b) || b == PLUS || b == MINUS || IsExponent(b) || b == DOT }

  /** The byte at `p`; past the end it is zero. */
  function At(s: seq<byte>, p: nat): byte { if p < |s| then s[p] else 0 }

  // ----- escapes -----

  function Hex(b: byte): int {
    if IsDigit(b) then b - 48
    else if 97 <= b <= 102 then b - 87
    else if 65 <= b <= 70 then b - 55
    else -1
  }

  /** The value of the four hexadecimal digits from `p` on, or -1. */
  function Hex4(s: seq<byte>, p: nat): (u: int)
    requires p + 4 <= |s|
    ensures -1 <= u < 65536
  {
    var a, b, c, d := Hex(s[p]), Hex(s[p + 1]), Hex(s[p + 2]), Hex(s[p + 3]);
    if a < 0 || b < 0 || c < 0 || d < 0 then -1 else a * 4096 + b * 256 + c * 16 + d
  }

  /** A surrogate pair as the reader combines it: bit 16 is set, not added. */
  function Pair(hi: nat, lo: nat): (u: nat)
    ensures u < 0x200000
  {
    var x, y := hi % 1024, lo % 1024;
    x * 1024 + y + if x / 64 % 2 == 1 then 0 else 65536
  }

  /** UTF-8 bytes of a character. */
  function Utf8(u: nat): (bs: seq<byte>)
    requires u < 0x200000
    ensures 1 <= |bs| <= 4
  {
    if u <= 0x7F then [u]
    else if u <= 0x7FF then [0xC0 + u / 64, 0x80 + u % 64]
    else if u <= 0xFFFF then [0xE0 + u / 4096, 0x80 + u / 64 % 64, 0x80 + u % 64]
    else [0xF0 + u / 262144, 0x80 + u / 4096 % 64, 0x80 + u / 64 % 64, 0x80 + u % 64]
  }

  /** A `\u` escape whose `u` is at `p`: the position after it and its bytes. */
  function Unicode(s: seq<byte>, p: nat): (r: Option<(nat, seq<byte>)>)
    requires p < |s|
    ensures r.Some? ==> p < r.value.0 <= |s|
  {
    if |s| - p <= 4 then None else
    var u := Hex4(s, p + 1);
    if u < 0 then None
    else if u / 2048 != 27 then Some((p + 5, Utf8(u)))
    else if |s| - (p + 4) <= 6 || s[p + 5] != BACKSLASH || s[p + 6] != 117 then None
    else
      var v := Hex4(s, p + 7);
      if v < 0 then None else Some((p + 11, Utf8(Pair(u, v))))
  }

  /** What an escape adds to a string, and the position after it. */
  function Escape(s: seq<byte>, p: nat): (r: Option<(nat, seq<byte>)>)
    requires p < |s|
    ensures r.Some? ==> p < r.value.0 <= |s|
  {
    var b := s[p];
    if b == 98 then Some((p + 1, [8]))
    else if b == 102 then Some((p + 1, [12]))
    else if b == 110 then Some((p + 1, [10]))
    else if b == 114 then Some((p + 1, [13]))
    else if b == 116 then Some((p + 1, [9]))
    else if b == 117 then Unicode(s, p)
    else Some((p + 1, [b]))
  }

  // ----- control -----

  /** The part of a number's state that decides where it ends. */
  datatype Num = Num(dbl: bool, zero: bool, e: bool, gotSign: bool, digits: nat, integer: nat)

  const NEW_NUMBER := Num(false, false, false, false, 0, 0)

  datatype Kind = Obj | Arr | Str | Number(num: Num) | Scalar

  /** An open value: its number in order of creation and how many values it holds so far. */
  datatype Open = Open(id: nat, kind: Kind, count: nat)

  /** `path` leads from the root to the value being read, and `text` is the string or key read
      so far; the first pass only keeps its length. */
  datatype Control = Control(
    ptr: nat, path: seq<Open>, made: nat, text: seq<byte>,
    needComma: bool, needColon: bool, seek: bool, str: bool, escaped: bool, done: bool,
    line: bool, block: bool)

  const START := Control(0, [], 0, [], false, false, true, false, false, false, false, false)

  /** What a pass makes, completes and puts into place. */
  datatype Event =
    | New(id: nat, kind: Kind)
    | Text(id: nat, w: seq<byte>)
    | Key(id: nat, w: seq<byte>)
    | Child(id: nat, child: nat)

  datatype Turn = More(c: Control, ev: seq<Event>) | Accepted | Rejected

  function Top(c: Control): Open
    requires c.path != []
  {
    c.path[|c.path| - 1]
  }

  function Create(c: Control, k: Kind): Control {
    c.(path := c.path + [Open(c.made, k, 0)], made := c.made + 1)
  }

  /** The value on top is complete; it joins its parent, or the text is done. */
  function Finish(c: Control): Turn
    requires c.path != []
  {
    var top, n := Top(c), |c.path|;
    if n == 1 then More(c.(path := [], needComma := true, done := true), [])
    else
      var parent := c.path[n - 2];
      if parent.count + 1 > LIMIT then Rejected
      else More(c.(path := c.path[..n - 2] + [parent.(count := parent.count + 1)], needComma := true,
                   seek := c.seek || parent.kind == Arr),
                [Child(parent.id, top.id)])
  }

  function Then(ev: seq<Event>, t: Turn): Turn {
    if t.More? then More(t.c, ev + t.ev) else t
  }

  /** Inside a string or a key. */
  function StringTurn(s: seq<byte>, c: Control): Turn
    requires c.path != [] && (Top(c).kind == Str || Top(c).kind == Obj)
  {
    var b := At(s, c.ptr);
    var top := Top(c);
    if b == 0 || |c.text| > LIMIT then Rejected
    else if c.escaped then
      var r := Escape(s, c.ptr);
      if r.None? then Rejected else More(c.(ptr := r.value.0, escaped := false, text := c.text + r.value.1), [])
    else if b == BACKSLASH then More(c.(ptr := c.ptr + 1, escaped := true), [])
    else if b != QUOTE then More(c.(ptr := c.ptr + 1, text := c.text + [b]), [])
    else if top.kind == Str then Then([Text(top.id, c.text)], Finish(c.(ptr := c.ptr + 1, str := false)))
    else More(c.(ptr := c.ptr + 1, str := false, seek := true, needColon := true), [Key(top.id, c.text)])
  }

  predicate Word(s: seq<byte>, p: nat, w: seq<byte>) {
    p + |w| <= |s| && s[p..p + |w|] == w
  }

  const TRUE: seq<byte> := [116, 114, 117, 101]
  const FALSE: seq<byte> := [102, 97, 108, 115, 101]
  const NULL: seq<byte> := [110, 117, 108, 108]

  function ScalarTurn(s: seq<byte>, c: Control, w: seq<byte>): Turn {
    if !Word(s, c.ptr, w) then Rejected
    else Then([New(c.made, Scalar)], Finish(Create(c, Scalar).(ptr := c.ptr + |w|)))
  }

  /** The end of the run of number characters from `p` on. */
  function SkipNumber(s: seq<byte>, p: nat): (q: nat)
    requires p <= |s|
    ensures p <= q <= |s| && !InNumber(At(s, q))
    decreases |s| - p
  {
    if p < |s| && InNumber(s[p]) then SkipNumber(s, p + 1) else p
  }

  /** The first character of a number. The second pass skips the number; the first starts
      parsing it, at the same character unless that is the sign. */
  function NumberTurn(first: bool, s: seq<byte>, c: Control): Turn
    requires c.ptr < |s|
  {
    var d := Create(c, Number(NEW_NUMBER));
    var made := [New(c.made, Number(NEW_NUMBER))];
    if !first then Then(made, Finish(d.(ptr := SkipNumber(s, c.ptr))))
    else if s[c.ptr] == MINUS then More(d.(ptr := c.ptr + 1), made)
    else More(d, made)
  }

  /** The first character of a value. */
  function ValueTurn(first: bool, s: seq<byte>, c: Control): Turn {
    var b := At(s, c.ptr);
    if b == LBRACE then More(Create(c, Obj).(ptr := c.ptr + 1), [New(c.made, Obj)])
    else if b == LBRACKET then More(Create(c, Arr).(ptr := c.ptr + 1, seek := true), [New(c.made, Arr)])
    else if b == QUOTE then More(Create(c, Str).(ptr := c.ptr + 1, str := true, text := []), [New(c.made, Str)])
    else if b == 116 then ScalarTurn(s, c, TRUE)
    else if b == 102 then ScalarTurn(s, c, FALSE)
    else if b == 110 then ScalarTurn(s, c, NULL)
    else if IsDigit(b) || b == MINUS then NumberTurn(first, s, c)
    else Rejected
  }

  /** Looking for a value. */
  function SeekTurn(first: bool, s: seq<byte>, c: Control): Turn {
    var b := At(s, c.ptr);
    var next := c.(ptr := c.ptr + 1);
    if IsSpace(b) then More(next, [])
    else if b == RBRACKET then
      if c.path != [] && Top(c).kind == Arr then Finish(next.(needComma := false, seek := false)) else Rejected
    else if c.needComma then
      if b == COMMA then More(next.(needComma := false), []) else Rejected
    else if c.needColon then
      if b == COLON then More(next.(needColon := false), []) else Rejected
    else ValueTurn(first, s, c.(seek := false))
  }

  /** Between the members of an object. */
  function ObjectTurn(s: seq<byte>, c: Control): Turn
    requires c.path != []
  {
    var b := At(s, c.ptr);
    var next := c.(ptr := c.ptr + 1);
    if IsSpace(b) then More(next, [])
    else if b == QUOTE then if c.needComma then Rejected else More(next.(str := true, text := []), [])
    else if b == RBRACE then Finish(next.(needComma := false))
    else if b == COMMA && c.needComma then More(next.(needComma := false), [])
    else Rejected
  }

  const INT_MAX := 9223372036854775807

  predicate WouldOverflow(value: nat, b: byte)
    requires IsDigit(b)
  {
    (INT_MAX - (b - 48)) / 10 < value
  }

  /** One character of a number, on the first pass: go on with a new state, or the number ends
      before this character, or it is malformed. */
  datatype Digit = Goes(num: Num, again: bool) | Ends | Malformed

  function DigitTurn(b: byte, n: Num): Digit {
    if IsDigit(b) then
      if n.e then Goes(n.(digits := n.digits + 1, gotSign := true), false)
      else if n.dbl then Goes(n.(digits := n.digits + 1), false)
      else if n.zero then Malformed
      else
        var z := n.digits == 0 && b == 48;
        if WouldOverflow(n.integer, b) then Goes(n.(dbl := true, zero := z), true)
        else Goes(n.(digits := n.digits + 1, zero := z, integer := n.integer * 10 + (b - 48)), false)
    else if (b == PLUS || b == MINUS) && n.e && !n.gotSign then Goes(n.(gotSign := true), false)
    else if b == DOT && !n.dbl then
      if n.digits == 0 then Malformed else Goes(n.(dbl := true, digits := 0), false)
    else if n.e then (if n.digits == 0 then Malformed else Ends)
    else if n.dbl && n.digits == 0 then Malformed
    else if IsExponent(b) then Goes(n.(e := true, dbl := true, digits := 0, zero := false), false)
    else Ends
  }

  function InNumberTurn(s: seq<byte>, c: Control): Turn
    requires c.path != [] && Top(c).kind.Number?
  {
    match DigitTurn(At(s, c.ptr), Top(c).kind.num)
    case Malformed => Rejected
    case Ends => Finish(c)
    case Goes(n, again) =>
      var m := |c.path| - 1;
      More(c.(path := c.path[m := c.path[m].(kind := Number(n))], ptr := if again then c.ptr else c.ptr + 1), [])
  }

  /** Inside a comment. */
  function CommentTurn(s: seq<byte>, c: Control): Turn
    requires c.line || c.block
  {
    var b := At(s, c.ptr);
    if c.line then
      if b == RETURN || b == NEWLINE || b == 0 then More(c.(line := false), []) else More(c.(ptr := c.ptr + 1), [])
    else if b == 0 then Rejected
    else if b == STAR && c.ptr + 1 < |s| && s[c.ptr + 1] == SLASH then More(c.(ptr := c.ptr + 2, block := false), [])
    else More(c.(ptr := c.ptr + 1), [])
  }

  /** A slash where comments are enabled. */
  function SlashTurn(s: seq<byte>, c: Control): Turn
    requires c.path != [] || c.seek || c.done
  {
    if !c.seek && !c.done && Top(c).kind != Obj then Rejected
    else if c.ptr + 1 >= |s| then Rejected
    else if s[c.ptr + 1] == SLASH then More(c.(ptr := c.ptr + 2, line := true), [])
    else if s[c.ptr + 1] == STAR then More(c.(ptr := c.ptr + 2, block := true), [])
    else Rejected
  }

  function DoneTurn(s: seq<byte>, c: Control): Turn {
    var b := At(s, c.ptr);
    if b == 0 then Accepted else if IsSpace(b) then More(c.(ptr := c.ptr + 1), []) else Rejected
  }

  /** One turn of the loop over characters. */
  function Step(first: bool, comments: bool, s: seq<byte>, c: Control): Turn
    requires Proper(first, s, c)
  {
    if c.str then StringTurn(s, c)
    else if comments && (c.line || c.block) then CommentTurn(s, c)
    else if comments && At(s, c.ptr) == SLASH then SlashTurn(s, c)
    else if c.done then DoneTurn(s, c)
    else if c.seek then SeekTurn(first, s, c)
    else if Top(c).kind == Obj then ObjectTurn(s, c)
    else InNumberTurn(s, c)
  }

  // ----- what always holds -----

  predicate Holder(k: Kind) { k == Obj || k == Arr }

  ghost predicate Nested(path: seq<Open>) {
    forall i :: 0 <= i < |path| - 1 ==> Holder(path[i].kind)
  }

  /** Values are numbered as they are made, so along a path numbers grow. */
  ghost predicate Numbered(path: seq<Open>, made: nat) {
    && (forall i :: 0 <= i < |path| ==> path[i].id < made)
    && (forall i, j :: 0 <= i < j < |path| ==> path[i].id < path[j].id)
  }

  /** Which states a pass can be in; only the first is ever inside a number. */
  ghost predicate Proper(first: bool, s: seq<byte>, c: Control) {
    && c.ptr <= |s| && Nested(c.path) && Numbered(c.path, c.made)
    && (c.str ==> c.path != [] && (Top(c).kind == Str || Top(c).kind == Obj) && !c.seek && !c.done && !c.line && !c.block)
    && (c.done ==> c.path == [] && !c.seek)
    && (c.path == [] ==> c.done || c.seek)
    && (c.path != [] && c.seek ==> Holder(Top(c).kind))
    && (c.path != [] && !c.str && !c.seek ==> Top(c).kind == Obj || (first && Top(c).kind.Number? && !c.line && !c.block))
  }

  /** Not inside a number. */
  predicate Between(c: Control) { c.path == [] || !Top(c).kind.Number? }

  lemma {:induction false} FinishProper(first: bool, s: seq<byte>, c: Control)
    requires c.path != [] && c.ptr <= |s| && Nested(c.path) && Numbered(c.path, c.made) && !c.str && !c.seek && !c.done
    ensures !Finish(c).Accepted?
    ensures var t := Finish(c); t.More? ==>
              && Proper(first, s, t.c) && t.c.ptr == c.ptr && t.c.needComma && !t.c.str && Between(t.c)
              && t.c.line == c.line && t.c.block == c.block
  {}

  /** How much is left to do at one character. */
  function Rank(c: Control): nat {
    if c.line then 4
    else if c.path != [] && Top(c).kind.Number? then (if Top(c).kind.num.dbl then 1 else 2)
    else if c.seek && !c.needComma && !c.needColon then 3
    else 0
  }

  ghost predicate Forward(s: seq<byte>, c: Control, t: Turn) {
    t.More? ==> c.ptr <= t.c.ptr <= |s| && (t.c.ptr == c.ptr ==> Rank(t.c) < Rank(c))
  }

  /** A turn outside comments: it moves forward and opens no comment. */
  ghost predicate Plain(first: bool, s: seq<byte>, c: Control, t: Turn) {
    Forward(s, c, t) && (t.More? ==> Proper(first, s, t.c) && !t.c.line && !t.c.block)
  }

  lemma {:induction false} StringProper(first: bool, s: seq<byte>, c: Control)
    requires Proper(first, s, c) && c.str
    ensures Plain(first, s, c, StringTurn(s, c))
  {
    hide Escape, Rank, Finish;
    var b := At(s, c.ptr);
    if b == QUOTE && !c.escaped && Top(c).kind == Str { FinishProper(first, s, c.(ptr := c.ptr + 1, str := false)); }
  }

  lemma {:induction false} SeekProper(first: bool, s: seq<byte>, c: Control)
    requires Proper(first, s, c) && c.seek && !c.str && !c.line && !c.block
    ensures Plain(first, s, c, SeekTurn(first, s, c))
  {
    hide Finish, ValueTurn;
    var b := At(s, c.ptr);
    if b == RBRACKET && c.path != [] { FinishProper(first, s, c.(ptr := c.ptr + 1, needComma := false, seek := false)); }
    if !c.needComma && !c.needColon { ValueProper(first, s, c); }
  }

  lemma {:induction false} ValueProper(first: bool, s: seq<byte>, c: Control)
    requires Proper(first, s, c) && c.seek && !c.str && !c.needComma && !c.needColon && !c.line && !c.block
    ensures Plain(first, s, c, ValueTurn(first, s, c.(seek := false)))
  {
    hide ScalarTurn, NumberTurn, Proper, Create, Rank;
    var b := At(s, c.ptr);
    if b == LBRACE || b == LBRACKET || b == QUOTE { OpenProper(first, s, c); }
    else if b == 116 { ScalarProper(first, s, c, TRUE); }
    else if b == 102 { ScalarProper(first, s, c, FALSE); }
    else if b == 110 { ScalarProper(first, s, c, NULL); }
    else if IsDigit(b) || b == MINUS { NumberProper(first, s, c); }
  }

  /** An object, an array or a string begins. */
  lemma {:induction false} OpenProper(first: bool, s: seq<byte>, c: Control)
    requires Proper(first, s, c) && c.seek && !c.str && !c.needComma && !c.needColon && !c.line && !c.block
    requires var b := At(s, c.ptr); b == LBRACE || b == LBRACKET || b == QUOTE
    ensures Plain(first, s, c, ValueTurn(first, s, c.(seek := false)))
  {
    hide ScalarTurn, NumberTurn, Rank;
    OpenNests(c, if At(s, c.ptr) == LBRACE then Obj else if At(s, c.ptr) == LBRACKET then Arr else Str);
  }

  lemma {:induction false} OpenNests(c: Control, k: Kind)
    requires Nested(c.path) && Numbered(c.path, c.made) && (c.path != [] ==> Holder(Top(c).kind))
    ensures var d := Create(c.(seek := false), k); Nested(d.path) && Numbered(d.path, d.made) && Top(d).kind == k && d.path != []
  {}

  lemma {:induction false} ScalarProper(first: bool, s: seq<byte>, c: Control, w: seq<byte>)
    requires Proper(first, s, c) && c.seek && !c.str && !c.line && !c.block && |w| > 0
    ensures Plain(first, s, c, ScalarTurn(s, c.(seek := false), w))
  {
    hide Finish;
    if Word(s, c.ptr, w) { FinishProper(first, s, Create(c.(seek := false), Scalar).(ptr := c.ptr + |w|)); }
  }

  lemma {:induction false} NumberProper(first: bool, s: seq<byte>, c: Control)
    requires Proper(first, s, c) && c.seek && !c.str && !c.needComma && !c.needColon && !c.line && !c.block
    requires c.ptr < |s| && (IsDigit(s[c.ptr]) || s[c.ptr] == MINUS)
    ensures Plain(first, s, c, NumberTurn(first, s, c.(seek := false)))
  {
    hide Finish;
    if !first { FinishProper(first, s, Create(c.(seek := false), Number(NEW_NUMBER)).(ptr := SkipNumber(s, c.ptr))); }
  }

  lemma {:induction false} InNumberProper(first: bool, s: seq<byte>, c: Control)
    requires Proper(first, s, c) && !c.seek && !c.str && !c.done && !c.line && !c.block && Top(c).kind.Number?
    ensures Plain(first, s, c, InNumberTurn(s, c))
  {
    hide Finish;
    FinishProper(first, s, c);
  }

  lemma {:induction false} ObjectProper(first: bool, s: seq<byte>, c: Control)
    requires Proper(first, s, c) && !c.seek && !c.str && !c.done && !c.line && !c.block && Top(c).kind == Obj
    ensures Plain(first, s, c, ObjectTurn(s, c))
  {
    hide Finish;
    if c.ptr < |s| { FinishProper(first, s, c.(ptr := c.ptr + 1, needComma := false)); }
  }

  /** A turn keeps the state proper and always gets on: past the character, or closer to it. */
  lemma {:induction false} StepProper(first: bool, comments: bool, s: seq<byte>, c: Control)
    requires Proper(first, s, c) && (c.line || c.block ==> comments)
    ensures var t := Step(first, comments, s, c);
            Forward(s, c, t) && (t.More? ==> Proper(first, s, t.c) && (t.c.line || t.c.block ==> comments))
  {
    hide StringTurn, SeekTurn, ObjectTurn, InNumberTurn, CommentTurn, SlashTurn, DoneTurn;
    if c.str { StringProper(first, s, c); }
    else if comments && (c.line || c.block) { CommentProper(first, s, c); }
    else if comments && At(s, c.ptr) == SLASH { SlashProper(first, s, c); }
    else if c.done { DoneProper(first, s, c); }
    else if c.seek { SeekProper(first, s, c); }
    else if Top(c).kind == Obj { ObjectProper(first, s, c); }
    else { InNumberProper(first, s, c); }
  }

  lemma {:induction false} CommentProper(first: bool, s: seq<byte>, c: Control)
    requires Proper(first, s, c) && (c.line || c.block)
    ensures var t := CommentTurn(s, c); Forward(s, c, t) && (t.More? ==> Proper(first, s, t.c))
  {
    hide CommentTurn, Forward, Proper;
    if c.line { LineProper(first, s, c); } else { BlockProper(first, s, c); }
  }

  lemma {:induction false} LineProper(first: bool, s: seq<byte>, c: Control)
    requires Proper(first, s, c) && c.line
    ensures var t := CommentTurn(s, c); Forward(s, c, t) && (t.More? ==> Proper(first, s, t.c))
  {
    hide Nested, Numbered, Rank;
    CommentRank(c);
  }

  lemma {:induction false} BlockProper(first: bool, s: seq<byte>, c: Control)
    requires Proper(first, s, c) && !c.line && c.block
    ensures var t := CommentTurn(s, c); Forward(s, c, t) && (t.More? ==> Proper(first, s, t.c))
  {
    hide Nested, Numbered, Rank;
  }

  lemma {:induction false} CommentRank(c: Control)
    requires c.line
    ensures Rank(c.(line := false)) < Rank(c)
  {}

  lemma {:induction false} SlashProper(first: bool, s: seq<byte>, c: Control)
    requires Proper(first, s, c) && !c.str
    ensures var t := SlashTurn(s, c); Forward(s, c, t) && (t.More? ==> Proper(first, s, t.c))
  {
    hide Nested, Numbered;
  }

  lemma {:induction false} DoneProper(first: bool, s: seq<byte>, c: Control)
    requires Proper(first, s, c) && c.done && !c.line && !c.block
    ensures Plain(first, s, c, DoneTurn(s, c))
  {}

  // ----- whole passes -----

  /** Everything a pass does to memory, if it accepts the text from `c` on. */
  function Run(first: bool, comments: bool, s: seq<byte>, c: Control): Option<seq<Event>>
    requires Proper(first, s, c) && (c.line || c.block ==> comments)
    decreases |s| - c.ptr, Rank(c)
  {
    StepProper(first, comments, s, c);
    match Step(first, comments, s, c)
    case Rejected => None
    case Accepted => Some([])
    case More(d, ev) =>
      var rest := Run(first, comments, s, d);
      if rest.None? then None else Some(ev + rest.value)
  }

  /** A pass takes one turn at a time. */
  lemma {:induction false} RunStep(comments: bool, s: seq<byte>, c: Control, d: Control, ev: seq<Event>)
    requires Proper(true, s, c) && !c.line && !c.block && Proper(true, s, d) && !d.line && !d.block
    requires Step(true, comments, s, c) == More(d, ev)
    ensures var r := Run(true, comments, s, d); Run(true, comments, s, c) == if r.None? then None else Some(ev + r.value)
  {}

  lemma {:induction false} StartProper(first: bool, s: seq<byte>)
    ensures Proper(first, s, START) && !START.line && !START.block
  {}

  // ----- agreement of the passes -----

  /** Right after a number, a further number character is an error. */
  lemma {:induction false} NothingFollows(comments: bool, s: seq<byte>, c: Control)
    requires Proper(true, s, c) && Between(c) && c.needComma && !c.str && !c.line && !c.block && InNumber(At(s, c.ptr))
    ensures Step(true, comments, s, c) == Rejected
  {}

  /** A number that the first pass accepts ends at `q`: it is made of number characters, the
      next character is none, and the first pass goes on from there. */
  lemma {:induction false} NumberRun(comments: bool, s: seq<byte>, c: Control) returns (q: nat)
    requires Proper(true, s, c) && !Between(c) && !c.str && !c.line && !c.block
    requires Run(true, comments, s, c).Some?
    ensures c.ptr <= q <= |s| && (forall i :: c.ptr <= i < q ==> InNumber(s[i])) && !InNumber(At(s, q))
    ensures var f := Finish(c.(ptr := q));
            && f.More? && Proper(true, s, f.c) && !f.c.line && !f.c.block
            && Run(true, comments, s, f.c).Some?
            && Run(true, comments, s, c).value == f.ev + Run(true, comments, s, f.c).value
    decreases |s| - c.ptr, Rank(c)
  {
    hide Finish, Proper, DigitTurn, Step, InNumber;
    StepProper(true, comments, s, c);
    NumberTurns(comments, s, c);
    var t, b := Step(true, comments, s, c), At(s, c.ptr);
    match DigitTurn(b, Top(c).kind.num)
    case Ends =>
      q := c.ptr;
      assert c.(ptr := q) == c;
      if InNumber(b) { NothingFollows(comments, s, t.c); }
    case Goes(n, again) =>
      q := NumberRun(comments, s, t.c);
      FinishSame(c, t.c, q);
  }

  /** Inside a number: what a turn does, and that a number goes on only over its own characters. */
  lemma {:induction false} NumberTurns(comments: bool, s: seq<byte>, c: Control)
    requires Proper(true, s, c) && !Between(c) && !c.str && !c.line && !c.block && !Step(true, comments, s, c).Rejected?
    ensures c.path != [] && Top(c).kind.Number? && Step(true, comments, s, c).More?
    ensures var t := Step(true, comments, s, c);
            match DigitTurn(At(s, c.ptr), Top(c).kind.num)
            case Malformed => false
            case Ends => t == Finish(c) && Proper(true, s, t.c) && Between(t.c) && t.c.needComma && !t.c.str && !t.c.line && !t.c.block && t.c.ptr == c.ptr
            case Goes(n, again) =>
              && InNumber(At(s, c.ptr)) && !Between(t.c) && !t.c.str && !t.c.line && !t.c.block && t.ev == [] && |t.c.path| == |c.path|
              && t.c == c.(ptr := if again then c.ptr else c.ptr + 1, path := t.c.path)
              && t.c.path[..|c.path| - 1] == c.path[..|c.path| - 1] && Top(t.c).id == Top(c).id
  {
    hide Finish, Nested, Numbered;
    FinishProper(true, s, c);
    assert Step(true, comments, s, c) == InNumberTurn(s, c);
  }

  lemma {:induction false} FinishSame(c: Control, d: Control, q: nat)
    requires c.path != [] && |d.path| == |c.path| && d == c.(ptr := d.ptr, path := d.path)
    requires d.path[..|c.path| - 1] == c.path[..|c.path| - 1] && Top(d).id == Top(c).id
    ensures Finish(d.(ptr := q)) == Finish(c.(ptr := q))
  {
    var n := |c.path|;
    if n > 1 {
      assert d.path[n - 2] == d.path[..n - 1][n - 2] && c.path[n - 2] == c.path[..n - 1][n - 2];
      assert d.path[..n - 2] == d.path[..n - 1][..n - 2] && c.path[..n - 2] == c.path[..n - 1][..n - 2];
    }
  }

  lemma {:induction false} SkipsTo(s: seq<byte>, p: nat, q: nat)
    requires p <= q <= |s| && (forall i :: p <= i < q ==> InNumber(s[i])) && !InNumber(At(s, q))
    ensures SkipNumber(s, p) == q
    decreases q - p
  {
    if p < q { SkipsTo(s, p + 1, q); }
  }

  /** The turn at `c` starts a number. */
  predicate AtNumber(comments: bool, s: seq<byte>, c: Control) {
    && !c.str && !(comments && (c.line || c.block)) && !c.done && c.seek && !c.needComma && !c.needColon
    && (IsDigit(At(s, c.ptr)) || At(s, c.ptr) == MINUS)
  }

  /** Elsewhere the passes take the same turn, and do not end up inside a number. */
  lemma {:induction false} SameStep(comments: bool, s: seq<byte>, c: Control)
    requires Proper(true, s, c) && Between(c) && (c.line || c.block ==> comments) && !AtNumber(comments, s, c)
    ensures Proper(false, s, c) && Step(false, comments, s, c) == Step(true, comments, s, c)
    ensures Step(true, comments, s, c).More? ==> Between(Step(true, comments, s, c).c)
  {
    hide StringTurn, SeekTurn, ObjectTurn, InNumberTurn, CommentTurn, SlashTurn, DoneTurn;
    if c.str { StringBetween(s, c); }
    else if c.line || c.block { CommentBetween(s, c); }
    else if comments && At(s, c.ptr) == SLASH { CommentBetween(s, c); }
    else if c.done { CommentBetween(s, c); }
    else if c.seek { SeekSame(s, c); }
    else { ObjectBetween(s, c); }
  }

  lemma {:induction false} StringBetween(s: seq<byte>, c: Control)
    requires Proper(true, s, c) && c.str
    ensures StringTurn(s, c).More? ==> Between(StringTurn(s, c).c)
  {
    hide Escape, Finish;
    if c.ptr < |s| { FinishProper(true, s, c.(ptr := c.ptr + 1, str := false)); }
  }

  lemma {:induction false} CommentBetween(s: seq<byte>, c: Control)
    requires Proper(true, s, c) && Between(c) && !c.str
    ensures (c.line || c.block) && CommentTurn(s, c).More? ==> Between(CommentTurn(s, c).c)
    ensures SlashTurn(s, c).More? ==> Between(SlashTurn(s, c).c)
    ensures c.done && DoneTurn(s, c).More? ==> Between(DoneTurn(s, c).c)
  {
    hide Nested, Numbered;
  }

  lemma {:induction false} ObjectBetween(s: seq<byte>, c: Control)
    requires Proper(true, s, c) && !c.str && !c.seek && !c.done && Top(c).kind == Obj
    ensures ObjectTurn(s, c).More? ==> Between(ObjectTurn(s, c).c)
  {
    hide Finish;
    if c.ptr < |s| { FinishProper(true, s, c.(ptr := c.ptr + 1, needComma := false)); }
  }

  lemma {:induction false} SeekSame(s: seq<byte>, c: Control)
    requires Proper(true, s, c) && Between(c) && c.seek && !c.str && !c.done
    requires c.needComma || c.needColon || !(IsDigit(At(s, c.ptr)) || At(s, c.ptr) == MINUS)
    ensures SeekTurn(false, s, c) == SeekTurn(true, s, c)
    ensures SeekTurn(true, s, c).More? ==> Between(SeekTurn(true, s, c).c)
  {
    hide Finish, ValueTurn;
    if c.ptr < |s| && c.path != [] { FinishProper(true, s, c.(ptr := c.ptr + 1, needComma := false, seek := false)); }
    if !c.needComma && !c.needColon { ValueSame(s, c); }
  }

  lemma {:induction false} ValueSame(s: seq<byte>, c: Control)
    requires Proper(true, s, c) && c.seek && !c.str && !IsDigit(At(s, c.ptr)) && At(s, c.ptr) != MINUS
    ensures var d := c.(seek := false); ValueTurn(false, s, d) == ValueTurn(true, s, d)
    ensures var t := ValueTurn(true, s, c.(seek := false)); t.More? ==> Between(t.c)
  {
    hide ScalarTurn, NumberTurn, Nested, Numbered;
    ScalarBetween(s, c, TRUE);
    ScalarBetween(s, c, FALSE);
    ScalarBetween(s, c, NULL);
  }

  lemma {:induction false} ScalarBetween(s: seq<byte>, c: Control, w: seq<byte>)
    requires Proper(true, s, c) && c.seek && !c.str
    ensures var t := ScalarTurn(s, c.(seek := false), w); t.More? ==> Between(t.c)
  {
    hide Finish;
    if Word(s, c.ptr, w) { FinishProper(true, s, Create(c.(seek := false), Scalar).(ptr := c.ptr + |w|)); }
  }

  lemma {:induction false} NumberStep(first: bool, comments: bool, s: seq<byte>, c: Control)
    requires Proper(first, s, c) && (c.line || c.block ==> comments) && AtNumber(comments, s, c)
    ensures Step(first, comments, s, c) == NumberTurn(first, s, c.(seek := false)) && !c.line && !c.block && c.ptr < |s|
    ensures var t := NumberTurn(true, s, c.(seek := false));
            t.More? && t.ev == [New(c.made, Number(NEW_NUMBER))] && t.c.path != []
  {
    hide Finish;
  }

  /** Whatever the first pass accepts, the second accepts too, and both do the same to memory:
      the same values in the same order, the same characters, the same members. In
      particular skipping a number stops where parsing it did. */
  lemma {:induction false} PassesAgree(comments: bool, s: seq<byte>, c: Control)
    requires Proper(true, s, c) && Between(c) && (c.line || c.block ==> comments) && Run(true, comments, s, c).Some?
    ensures Proper(false, s, c) && Run(false, comments, s, c) == Run(true, comments, s, c)
    decreases |s| - c.ptr, Rank(c)
  {
    hide Step, Finish, NumberTurn;
    StepProper(true, comments, s, c);
    var t := Step(true, comments, s, c);
    if AtNumber(comments, s, c) {
      NumberStep(true, comments, s, c);
      assert Proper(false, s, c);
      NumberStep(false, comments, s, c);
      var q := NumberAgrees(comments, s, c, t.c);
      PassesAgree(comments, s, Finish(t.c.(ptr := q)).c);
      var f := Finish(t.c.(ptr := q));
      assert (t.ev + f.ev) + Run(true, comments, s, f.c).value == t.ev + (f.ev + Run(true, comments, s, f.c).value);
    } else {
      SameStep(comments, s, c);
      if t.More? { PassesAgree(comments, s, t.c); }
    }
  }

  /** Over one number: the first pass parses it into `d`, the second skips to its end. */
  lemma {:induction false} NumberAgrees(comments: bool, s: seq<byte>, c: Control, d: Control) returns (q: nat)
    requires Proper(true, s, c) && Between(c) && AtNumber(comments, s, c) && !c.line && !c.block && c.ptr < |s|
    requires NumberTurn(true, s, c.(seek := false)) == More(d, [New(c.made, Number(NEW_NUMBER))])
    requires Proper(true, s, d) && Run(true, comments, s, d).Some?
    ensures c.ptr < q <= |s|
    ensures var f := Finish(d.(ptr := q));
            && f.More? && Proper(true, s, f.c) && Between(f.c) && !f.c.line && !f.c.block && f.c.ptr == q
            && Run(true, comments, s, f.c).Some? && Run(true, comments, s, d).value == f.ev + Run(true, comments, s, f.c).value
            && NumberTurn(false, s, c.(seek := false)) == More(f.c, [New(c.made, Number(NEW_NUMBER))] + f.ev)
  {
    hide Finish, Run;
    q := NumberRun(comments, s, d);
    SkipsTo(s, c.ptr, q);
    FinishProper(true, s, d.(ptr := q));
    assert d.(ptr := q) == Create(c.(seek := false), Number(NEW_NUMBER)).(ptr := q);
  }
}
