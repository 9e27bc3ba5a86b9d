/** `struct.pack`: a format is read twice before anything is written, once to see which
    arguments it takes and once to find the size of the result. */
module Pack {
  import opened Basics

  const INT_MAX := 2147483647
  const LONG_MAX := 9223372036854775807

  /** An argument: its text, its value as a 64-bit integer, and its value as a float and as a
      double, which are not interpreted, least significant byte first. */
  datatype Arg = Arg(text: seq<byte>, num: int, single: seq<byte>, double: seq<byte>)

  ghost predicate Proper(args: seq<Arg>) {
    |args| <= INT_MAX && forall i :: 0 <= i < |args| ==> |args[i].text| < INT_MAX && |args[i].single| == 4 && |args[i].double| == 8
  }

  /** A format code with its repeat count. */
  datatype Directive = Directive(code: char, arg: int)

  // ----- codes -----

  predicate Skips(code: char) { code == 'x' || code == 'X' || code == '@' }

  predicate Textual(code: char) { code == 'a' || code == 'A' || code == 'Z' || code == 'h' || code == 'H' }

  predicate Hexadecimal(code: char) { code == 'h' || code == 'H' }

  /** Bytes per value of a code that takes one argument for each repetition; 0 for the others. */
  function Width(code: char): nat {
    if code in {'c', 'C'} then 1
    else if code in {'s', 'S', 'n', 'v'} then 2
    else if code in {'i', 'I', 'l', 'L', 'N', 'V', 'f', 'g', 'G'} then 4
    else if code in {'q', 'Q', 'J', 'P', 'd', 'e', 'E'} then 8
    else 0
  }

  predicate Known(code: char) { Skips(code) || Textual(code) || Width(code) > 0 }

  // ----- the first pass: which arguments -----

  predicate IsDigit(c: char) { '0' <= c <= '9' }

  function DigitsEnd(format: string, i: nat): (j: nat)
    requires i <= |format|
    ensures i <= j <= |format|
    decreases |format| - i
  {
    if i < |format| && IsDigit(format[i]) then DigitsEnd(format, i + 1) else i
  }

  function Decimal(s: string): nat
    requires forall i :: 0 <= i < |s| ==> IsDigit(s[i])
  {
    if s == [] then 0 else
      assert IsDigit(s[|s| - 1]);
      10 * Decimal(s[..|s| - 1]) + (s[|s| - 1] as int - '0' as int)
  }

  lemma {:induction false} DigitsOnly(format: string, i: nat)
    requires i <= |format|
    ensures forall k :: i <= k < DigitsEnd(format, i) ==> IsDigit(format[k])
    decreases |format| - i
  {
    if i < |format| && IsDigit(format[i]) { DigitsOnly(format, i + 1); }
  }

  /** The repeat count written after a code at `i`, -1 for `*`, and where it ends. */
  function Repeat(format: string, i: nat): (r: (int, nat))
    requires i <= |format|
    ensures i <= r.1 <= |format| && -INT_MAX - 1 <= r.0 <= INT_MAX
  {
    if i == |format| then (1, i)
    else if format[i] == '*' then (-1, i + 1)
    else if IsDigit(format[i]) then
      DigitsOnly(format, i);
      var n := Decimal(format[i..DigitsEnd(format, i)]);
      (ToInt(if n > LONG_MAX then LONG_MAX else n), DigitsEnd(format, i))
    else (1, i)
  }

  /** How many arguments a directive takes. */
  function Takes(d: Directive): int {
    if Skips(d.code) then 0 else if Textual(d.code) then 1 else d.arg
  }

  /** The directive a code stands for when `current` arguments have been taken, if there are
      arguments enough. A negative count means the whole text, or all arguments left. */
  function Settle(code: char, arg: int, args: seq<Arg>, current: nat): (d: Option<Directive>)
    requires current <= |args| && Proper(args) && arg <= INT_MAX
    ensures d.Some? ==> d.value.code == code && 0 <= d.value.arg <= INT_MAX && Known(code) && current + Takes(d.value) <= |args|
  {
    if Skips(code) then Some(Directive(code, if arg < 0 then 1 else arg))
    else if Textual(code) then
      if current >= |args| then None
      else if arg >= 0 then Some(Directive(code, arg))
      else Some(Directive(code, |args[current].text| + if code == 'Z' then 1 else 0))
    else if Width(code) > 0 then
      var n := if arg < 0 then |args| - current else arg;
      if current > INT_MAX - n || current + n > |args| then None else Some(Directive(code, n))
    else None
  }

  function Directives(format: string, i: nat, args: seq<Arg>, current: nat): Option<seq<Directive>>
    requires i <= |format| && current <= |args| && Proper(args)
    decreases |format| - i
  {
    if i == |format| then Some([]) else
      var r := Repeat(format, i + 1);
      var d := Settle(format[i], r.0, args, current);
      if d.None? then None else
        var rest := Directives(format, r.1, args, current + Takes(d.value));
        if rest.None? then None else Some([d.value] + rest.value)
  }

  // ----- the second pass: how large -----

  /** Half of an int, rounded towards zero. */
  function Halved(n: int): int { if n < 0 then -(-n / 2) else n / 2 }

  /** How many units a directive adds at the cursor, in int arithmetic, and of how many bytes. */
  function Count(d: Directive): int {
    if Hexadecimal(d.code) then Halved(ToInt(d.arg + d.arg % 2)) else d.arg
  }

  /** How many units it needs. */
  function Needs(d: Directive): int {
    if Hexadecimal(d.code) then (d.arg + d.arg % 2) / 2 else d.arg
  }

  function Unit(d: Directive): (u: nat)
    ensures u == 1 || u == 2 || u == 4 || u == 8
  {
    if Width(d.code) > 0 then Width(d.code) else 1
  }

  /** Where a directive moves the sizing cursor, unless that passes the largest int. */
  function Moves(pos: nat, d: Directive): Option<nat>
    requires 0 <= d.arg <= INT_MAX
  {
    if d.code == 'X' then Some(if pos < d.arg then 0 else pos - d.arg)
    else if d.code == '@' then Some(d.arg)
    else if Count(d) < 0 || (INT_MAX - pos) / Unit(d) < Count(d) then None
    else Some(pos + Count(d) * Unit(d))
  }

  lemma {:induction false} CountNeeds(d: Directive)
    requires 0 <= d.arg <= INT_MAX
    ensures if Hexadecimal(d.code) && d.arg == INT_MAX then Count(d) < 0 else Count(d) == Needs(d) >= 0
  {}

  lemma {:induction false} Monotone(a: nat, b: nat, u: nat)
    requires a <= b
    ensures a * u <= b * u
  {}

  lemma {:induction false} Divides(n: nat, u: nat, k: nat)
    requires u > 0
    ensures n / u < k <==> n < k * u
  {
    var q := n / u;
    assert n == q * u + n % u;
    if q < k { Monotone(q + 1, k, u); } else { Monotone(k, q, u); }
  }

  /** A directive is refused exactly when it would move the cursor past the largest int, or when
      it is a hexadecimal field of exactly that many digits, whose count overflows. */
  lemma {:induction false} RefusedIff(pos: nat, d: Directive)
    requires 0 <= d.arg <= INT_MAX && pos <= INT_MAX
    ensures Moves(pos, d).None? <==>
            && d.code != 'X' && d.code != '@'
            && (pos + Needs(d) * Unit(d) > INT_MAX || (Hexadecimal(d.code) && d.arg == INT_MAX))
  {
    hide Needs, Count, Unit, Hexadecimal;
    CountNeeds(d);
    if Count(d) >= 0 { Divides(INT_MAX - pos, Unit(d), Count(d)); }
  }

  lemma {:induction false} MovesWithin(pos: nat, d: Directive)
    requires 0 <= d.arg <= INT_MAX && pos <= INT_MAX && Moves(pos, d).Some?
    ensures Moves(pos, d).value <= INT_MAX
  {
    hide Count, Unit;
    if Count(d) >= 0 { Divides(INT_MAX - pos, Unit(d), Count(d)); }
  }

  ghost predicate Settled(ds: seq<Directive>) {
    forall i :: 0 <= i < |ds| ==> 0 <= ds[i].arg <= INT_MAX && Known(ds[i].code)
  }

  /** The sizing cursor after all directives, and the furthest it ever was. */
  function Sizes(ds: seq<Directive>): (r: Option<(nat, nat)>)
    requires Settled(ds)
    ensures r.Some? ==> r.value.0 <= r.value.1 <= INT_MAX
  {
    if ds == [] then Some((0, 0)) else
      var before := Sizes(ds[..|ds| - 1]);
      if before.None? then None else
        var pos := Moves(before.value.0, ds[|ds| - 1]);
        if pos.None? then None
        else
          MovesWithin(before.value.0, ds[|ds| - 1]);
          Some((pos.value, if before.value.1 < pos.value then pos.value else before.value.1))
  }

  // ----- what is written -----

  function Zeros(n: nat): seq<byte> { seq(n, _ => 0) }

  /** Text cut or padded to `n` bytes; `Z` always keeps room for a final zero. */
  function TextField(code: char, text: seq<byte>, n: nat): (bs: seq<byte>)
    ensures |bs| == n
  {
    var keep := if code != 'Z' then n else if n == 0 then 0 else n - 1;
    var m := if |text| < keep then |text| else keep;
    text[..m] + seq(n - m, _ => if code == 'A' then 32 else 0)
  }

  function Nibble(b: byte): (n: int)
    ensures 0 <= n < 16
  {
    if 48 <= b <= 57 then b - 48 else if 65 <= b <= 70 then b - 55 else if 97 <= b <= 102 then b - 87 else 0
  }

  /** Two hexadecimal digits to a byte: `h` puts the first in the low half, `H` in the high. */
  function HexByte(code: char, a: int, b: int): byte
    requires 0 <= a < 16 && 0 <= b < 16
  {
    if code == 'h' then a + 16 * b else 16 * a + b
  }

  function HexField(code: char, text: seq<byte>): (bs: seq<byte>)
    ensures |bs| == (|text| + |text| % 2) / 2
    decreases |text|
  {
    if text == [] then []
    else if |text| == 1 then [HexByte(code, Nibble(text[0]), 0)]
    else [HexByte(code, Nibble(text[0]), Nibble(text[1]))] + HexField(code, text[2..])
  }

  /** The `n` low bytes of an integer in two's complement, least significant first. */
  function LowBytes(x: int, n: nat): (bs: seq<byte>)
    ensures |bs| == n
    decreases n
  {
    if n == 0 then [] else [x % 256] + LowBytes(x / 256, n - 1)
  }

  function Backwards(bs: seq<byte>): (r: seq<byte>)
    ensures |r| == |bs| && forall i :: 0 <= i < |bs| ==> r[i] == bs[|bs| - 1 - i]
  {
    seq(|bs|, i requires 0 <= i < |bs| => bs[|bs| - 1 - i])
  }

  predicate BigEndian(code: char) { code in {'n', 'N', 'J', 'G', 'E'} }

  predicate Floating(code: char) { code in {'f', 'g', 'G', 'd', 'e', 'E'} }

  /** One value of a code that takes an argument for each repetition. */
  function ValueField(code: char, a: Arg): (bs: seq<byte>)
    requires Width(code) > 0 && |a.single| == 4 && |a.double| == 8
    ensures |bs| == Width(code)
  {
    var low := if !Floating(code) then LowBytes(a.num, Width(code)) else if Width(code) == 4 then a.single else a.double;
    if BigEndian(code) then Backwards(low) else low
  }

  function ValueFields(code: char, args: seq<Arg>): (bs: seq<byte>)
    requires Width(code) > 0 && Proper(args)
    ensures |bs| == |args| * Width(code)
  {
    if args == [] then [] else
      OneMoreField(|args|, Width(code));
      ValueFields(code, args[..|args| - 1]) + ValueField(code, args[|args| - 1])
  }

  lemma OneMoreField(n: nat, w: nat)
    requires n > 0
    ensures n * w == (n - 1) * w + w
  {}

  /** What a directive writes at the cursor, when `current` arguments have been taken. */
  function Field(d: Directive, args: seq<Arg>, current: nat): (bs: seq<byte>)
    requires Known(d.code) && d.code != 'X' && d.code != '@' && d.arg >= 0 && Proper(args) && current + Takes(d) <= |args|
  {
    if d.code == 'x' then Zeros(d.arg)
    else if Hexadecimal(d.code) then
      var text := args[current].text;
      HexField(d.code, if d.arg < |text| then text[..d.arg] else text)
    else if Textual(d.code) then TextField(d.code, args[current].text, d.arg)
    else ValueFields(d.code, args[current..current + d.arg])
  }

  /** Everything written so far, the cursor, and the number of arguments taken. */
  datatype Out = Out(buf: seq<byte>, pos: nat, current: nat)

  /** `data` written over `buf` from `pos` on. */
  function Overlay(buf: seq<byte>, pos: nat, data: seq<byte>): (r: seq<byte>)
    requires pos <= |buf|
    ensures |r| == if pos + |data| > |buf| then pos + |data| else |buf|
  {
    buf[..pos] + data + if pos + |data| < |buf| then buf[pos + |data|..] else []
  }

  function Write(o: Out, d: Directive, args: seq<Arg>): (r: Out)
    requires Known(d.code) && d.arg >= 0 && Proper(args) && o.pos <= |o.buf| && o.current + Takes(d) <= |args|
    ensures r.pos <= |r.buf| && r.current == o.current + Takes(d)
  {
    if d.code == 'X' then o.(pos := if o.pos < d.arg then 0 else o.pos - d.arg)
    else if d.code == '@' then
      Out(if d.arg > o.pos then Overlay(o.buf, o.pos, Zeros(d.arg - o.pos)) else o.buf, d.arg, o.current)
    else
      var f := Field(d, args, o.current);
      Out(Overlay(o.buf, o.pos, f), o.pos + |f|, o.current + Takes(d))
  }

  function Taken(ds: seq<Directive>): int {
    if ds == [] then 0 else Taken(ds[..|ds| - 1]) + Takes(ds[|ds| - 1])
  }

  /** The directives take no more arguments than there are. */
  ghost predicate Enough(ds: seq<Directive>, args: seq<Arg>) {
    Settled(ds) && Proper(args) && forall i :: 0 <= i <= |ds| ==> 0 <= Taken(ds[..i]) <= |args|
  }

  lemma {:induction false} EnoughFront(ds: seq<Directive>, args: seq<Arg>)
    requires Enough(ds, args) && ds != []
    ensures Enough(ds[..|ds| - 1], args) && 0 <= Taken(ds[..|ds| - 1]) && Taken(ds) <= |args| && Known(ds[|ds| - 1].code)
    ensures Taken(ds) == Taken(ds[..|ds| - 1]) + Takes(ds[|ds| - 1])
  {
    var n := |ds| - 1;
    assert ds[..|ds|] == ds;
    forall i | 0 <= i <= n ensures 0 <= Taken(ds[..n][..i]) <= |args| { assert ds[..n][..i] == ds[..i]; }
  }

  /** All directives carried out in order. */
  function WriteAll(ds: seq<Directive>, args: seq<Arg>): (o: Out)
    requires Enough(ds, args)
    ensures o.pos <= |o.buf| && o.current == Taken(ds)
  {
    if ds == [] then Out([], 0, 0) else
      EnoughFront(ds, args);
      Write(WriteAll(ds[..|ds| - 1], args), ds[|ds| - 1], args)
  }

  /** A directive writes no more than was reserved for it. */
  lemma {:induction false} FieldFits(d: Directive, args: seq<Arg>, current: nat)
    requires Known(d.code) && d.code != 'X' && d.code != '@' && 0 <= d.arg <= INT_MAX && Proper(args) && current + Takes(d) <= |args|
    requires Count(d) >= 0
    ensures |Field(d, args, current)| <= Count(d) * Unit(d)
  {
    CountNeeds(d);
  }

  /** The writing cursor never passes the sizing cursor, and nothing is written beyond the size
      that was computed. */
  lemma {:induction false} WritesFit(ds: seq<Directive>, args: seq<Arg>)
    requires Enough(ds, args) && Sizes(ds).Some?
    ensures WriteAll(ds, args).pos <= Sizes(ds).value.0 && |WriteAll(ds, args).buf| <= Sizes(ds).value.1
  {
    hide Field, Overlay, Known, Width;
    if ds != [] {
      EnoughFront(ds, args);
      var front, d := ds[..|ds| - 1], ds[|ds| - 1];
      WritesFit(front, args);
      if d.code != 'X' && d.code != '@' { FieldFits(d, args, WriteAll(front, args).current); }
    }
  }

  // ----- the three loops -----

  /** Reads the format. */
  method ReadFormat(format: string, args: seq<Arg>) returns (ds: Option<seq<Directive>>)
    requires Proper(args)
    ensures ds == Directives(format, 0, args, 0)
    ensures ds.Some? ==> Enough(ds.value, args)
  {
    hide Repeat, Settle, Known, Width, Directives, Enough, Taken, After;
    var i: nat, current: nat := 0, 0;
    var found: seq<Directive> := [];
    ghost var all := Directives(format, 0, args, 0);
    NoneFound(all, args);
    while i < |format|
      invariant i <= |format| && current <= |args| && Enough(found, args) && current == Taken(found)
      invariant all == After(found, Directives(format, i, args, current))
      decreases |format| - i
    {
      var r := Repeat(format, i + 1);
      var d := Settle(format[i], r.0, args, current);
      DirectivesForm(format, i, args, current, found);
      if d.None? { return None; }
      EnoughMore(found, d.value, args);
      found := found + [d.value];
      i := r.1;
      current := current + Takes(d.value);
    }
    AllFound(format, args, current, found);
    ds := Some(found);
  }

  ghost function After(found: seq<Directive>, rest: Option<seq<Directive>>): Option<seq<Directive>> {
    if rest.None? then None else Some(found + rest.value)
  }

  lemma {:induction false} NoneFound(all: Option<seq<Directive>>, args: seq<Arg>)
    requires Proper(args)
    ensures After([], all) == all && Enough([], args) && Taken([]) == 0
  {
    if all.Some? { assert [] + all.value == all.value; }
  }

  lemma {:induction false} AllFound(format: string, args: seq<Arg>, current: nat, found: seq<Directive>)
    requires Proper(args) && current <= |args|
    ensures After(found, Directives(format, |format|, args, current)) == Some(found)
  {
    assert found + [] == found;
  }

  lemma {:induction false} DirectivesForm(format: string, i: nat, args: seq<Arg>, current: nat, found: seq<Directive>)
    requires i < |format| && current <= |args| && Proper(args)
    ensures var r := Repeat(format, i + 1); var d := Settle(format[i], r.0, args, current);
            var all := After(found, Directives(format, i, args, current));
            if d.None? then all.None?
            else all == After(found + [d.value], Directives(format, r.1, args, current + Takes(d.value)))
  {
    hide Repeat, Settle;
    var r := Repeat(format, i + 1);
    var d := Settle(format[i], r.0, args, current);
    if d.Some? {
      var rest := Directives(format, r.1, args, current + Takes(d.value));
      if rest.Some? { assert found + ([d.value] + rest.value) == found + [d.value] + rest.value; }
    }
  }

  lemma {:induction false} TakenMore(ds: seq<Directive>, d: Directive)
    ensures Taken(ds + [d]) == Taken(ds) + Takes(d)
  {
    assert (ds + [d])[..|ds|] == ds;
  }

  lemma {:induction false} EnoughMore(ds: seq<Directive>, d: Directive, args: seq<Arg>)
    requires Enough(ds, args) && 0 <= d.arg <= INT_MAX && Known(d.code) && Taken(ds) + Takes(d) <= |args|
    ensures Enough(ds + [d], args) && Taken(ds + [d]) == Taken(ds) + Takes(d)
  {
    hide Taken;
    var more := ds + [d];
    TakenMore(ds, d);
    assert more[..|ds|] == ds && more[..|more|] == more && ds[..|ds|] == ds;
    forall i | 0 <= i <= |more| ensures 0 <= Taken(more[..i]) <= |args| {
      if i <= |ds| { assert more[..i] == ds[..i]; }
    }
  }

  /** Finds the size of the result. */
  method FindSize(ds: seq<Directive>) returns (size: Option<nat>)
    requires Settled(ds)
    ensures size == if Sizes(ds).None? then None else Some(Sizes(ds).value.1)
  {
    var outputpos, outputsize := 0, 0;
    for i := 0 to |ds|
      invariant Sizes(ds[..i]) == Some((outputpos, outputsize))
    {
      assert ds[..i + 1][..i] == ds[..i] && ds[..i + 1][i] == ds[i];
      var pos := Moves(outputpos, ds[i]);
      if pos.None? {
        SizesStop(ds, i + 1);
        return None;
      }
      outputpos := pos.value;
      if outputsize < outputpos { outputsize := outputpos; }
    }
    assert ds[..|ds|] == ds;
    size := Some(outputsize);
  }

  lemma {:induction false} SizesStop(ds: seq<Directive>, i: nat)
    requires Settled(ds) && i <= |ds| && Sizes(ds[..i]).None?
    ensures Sizes(ds).None?
    decreases |ds| - i
  {
    if i < |ds| {
      assert ds[..i + 1][..i] == ds[..i];
      SizesStop(ds, i + 1);
    } else {
      assert ds[..i] == ds;
    }
  }

  type Memory = seq<Option<byte>>

  ghost predicate Holds(m: Memory, at: nat, data: seq<byte>) {
    at + |data| <= |m| && forall i :: 0 <= i < |data| ==> m[at + i] == Some(data[i])
  }

  method Store(m: Memory, at: nat, data: seq<byte>) returns (m': Memory)
    requires at + |data| <= |m|
    ensures |m'| == |m| && Holds(m', at, data) && forall i :: 0 <= i < |m| && (i < at || i >= at + |data|) ==> m'[i] == m[i]
  {
    m' := m;
    for k := 0 to |data|
      invariant |m'| == |m| && Holds(m', at, data[..k])
      invariant forall i :: 0 <= i < |m| && (i < at || i >= at + k) ==> m'[i] == m[i]
    {
      m' := m'[at + k := Some(data[k])];
      assert data[..k + 1] == data[..k] + [data[k]];
    }
    assert data[..|data|] == data;
  }

  lemma {:induction false} HoldsOverlay(m: Memory, m': Memory, buf: seq<byte>, pos: nat, data: seq<byte>)
    requires Holds(m, 0, buf) && pos <= |buf| && |m'| == |m| && Holds(m', pos, data)
    requires forall i :: 0 <= i < |m| && (i < pos || i >= pos + |data|) ==> m'[i] == m[i]
    ensures Holds(m', 0, Overlay(buf, pos, data))
  {
    var r := Overlay(buf, pos, data);
    forall i | 0 <= i < |r| ensures m'[0 + i] == Some(r[i]) {
      if i < pos || i >= pos + |data| { assert m[0 + i] == Some(buf[i]) && r[i] == buf[i]; }
      else { assert m'[pos + (i - pos)] == Some(data[i - pos]); }
    }
  }

  lemma {:induction false} HexStep(code: char, t: seq<byte>)
    ensures t == [] ==> HexField(code, t) == []
    ensures |t| == 1 ==> HexField(code, t) == [HexByte(code, Nibble(t[0]), 0)]
    ensures |t| > 1 ==> HexField(code, t) == [HexByte(code, Nibble(t[0]), Nibble(t[1]))] + HexField(code, t[2..])
  {}

  /** One more digit starts a byte, or completes the last one, whose other half was zero. */
  lemma {:induction false} HexSnoc(code: char, t: seq<byte>, b: byte)
    ensures var f, g, n := HexField(code, t), HexField(code, t + [b]), Nibble(b);
            if |t| % 2 == 0 then g == f + [HexByte(code, n, 0)]
            else var a := Nibble(t[|t| - 1]);
                 |f| > 0 && f[|f| - 1] == HexByte(code, a, 0) && g == f[..|f| - 1] + [HexByte(code, a, n)]
    decreases |t|
  {
    hide HexField, HexByte, Nibble;
    var u := t + [b];
    HexStep(code, t);
    HexStep(code, u);
    if |t| == 0 {
      assert u == [b];
    } else if |t| == 1 {
      assert u[2..] == [];
      HexStep(code, []);
    } else {
      assert u[2..] == t[2..] + [b] && u[0] == t[0] && u[1] == t[1];
      HexSnoc(code, t[2..], b);
      if |t| % 2 == 1 { assert t[2..][|t[2..]| - 1] == t[|t| - 1]; }
    }
  }

  /** A hexadecimal field, digit by digit: every other digit starts a new byte, and the shift
      alternates between the halves of a byte. */
  method WriteHex(m: Memory, outputpos: nat, code: char, text: seq<byte>) returns (m': Memory, end: nat)
    requires Hexadecimal(code) && outputpos + (|text| + |text| % 2) / 2 <= |m|
    ensures end == outputpos + |HexField(code, text)| && |m'| == |m| && Holds(m', outputpos, HexField(code, text))
    ensures forall i :: 0 <= i < |m| && (i < outputpos || i >= end) ==> m'[i] == m[i]
  {
    hide HexField, Nibble, Holds, HexByte, OnlyFrom;
    OnlyFromSelf(m, outputpos);
    m' := m;
    var p := outputpos - 1;
    var first, shift := true, if code == 'h' then 0 else 4;
    HexStep(code, text[..0]);
    HoldsNothing(m, outputpos, HexField(code, text[..0]));
    for k := 0 to |text|
      invariant |m'| == |m| && p == outputpos - 1 + |HexField(code, text[..k])| && first == (k % 2 == 0)
      invariant shift == if (code == 'h') == first then 0 else 4
      invariant Holds(m', outputpos, HexField(code, text[..k]))
      invariant OnlyFrom(m, m', outputpos, p + 1)
    {
      ghost var before, q := m', p;
      HexSnoc(code, text[..k], text[k]);
      assert text[..k + 1] == text[..k] + [text[k]] && (k > 0 ==> text[..k][k - 1] == text[k - 1]);
      m', p := WriteNibble(m', p, first, shift, Nibble(text[k]), outputpos, HexField(code, text[..k]), HexField(code, text[..k + 1]), code,
                           if k > 0 then Nibble(text[k - 1]) else 0);
      OnlyFromNext(m, before, m', outputpos, q + 1, p);
      first, shift := !first, 4 - shift;
    }
    assert text[..|text|] == text;
    end := p + 1;
    OnlyFromMeans(m, m', outputpos, end);
  }

  /** Nothing but the bytes from `lo` to `hi` has changed. */
  ghost predicate OnlyFrom(m: Memory, m': Memory, lo: nat, hi: nat) {
    |m'| == |m| && forall i :: 0 <= i < |m| && (i < lo || i >= hi) ==> m'[i] == m[i]
  }

  lemma {:induction false} OnlyFromSelf(m: Memory, lo: nat)
    ensures OnlyFrom(m, m, lo, lo)
  {}

  lemma {:induction false} OnlyFromMeans(m: Memory, m': Memory, lo: nat, hi: nat)
    requires OnlyFrom(m, m', lo, hi)
    ensures |m'| == |m| && forall i :: 0 <= i < |m| && (i < lo || i >= hi) ==> m'[i] == m[i]
  {}

  lemma {:induction false} OnlyFromNext(m: Memory, m1: Memory, m2: Memory, lo: nat, hi: nat, p: nat)
    requires OnlyFrom(m, m1, lo, hi) && lo <= p <= hi <= p + 1 && |m2| == |m1| && forall i :: 0 <= i < |m1| && i != p ==> m2[i] == m1[i]
    ensures OnlyFrom(m, m2, lo, p + 1)
  {}

  lemma {:induction false} HoldsNothing(m: Memory, at: nat, f: seq<byte>)
    requires at <= |m| && f == []
    ensures Holds(m, at, f)
  {}

  /** One digit: the first of a pair clears a new byte, and either is put into its half. */
  method WriteNibble(m: Memory, p: int, first: bool, shift: int, n: int, ghost at: nat, ghost f: seq<byte>, ghost g: seq<byte>,
                     ghost code: char, ghost a: int) returns (m': Memory, q: nat)
    requires 0 <= n < 16 && 0 <= a < 16 && Hexadecimal(code) && shift == (if (code == 'h') == first then 0 else 4)
    requires p == at - 1 + |f| && Holds(m, at, f) && at + |g| <= |m|
    requires if first then g == f + [HexByte(code, n, 0)]
             else |f| > 0 && f[|f| - 1] == HexByte(code, a, 0) && g == f[..|f| - 1] + [HexByte(code, a, n)]
    ensures q == at - 1 + |g| && |m'| == |m| && Holds(m', at, g) && forall i :: 0 <= i < |m| && i != q ==> m'[i] == m[i]
  {
    m', q := m, if first then p + 1 else p;
    if first {
      m' := m'[q := Some(0)];
    } else {
      assert m[at + (|f| - 1)] == Some(f[|f| - 1]);
    }
    m' := m'[q := Some(m'[q].value + if shift == 0 then n else 16 * n)];
    HoldsSnoc(m, m', at, f, g, q);
  }

  lemma {:induction false} HoldsSnoc(m: Memory, m': Memory, at: nat, f: seq<byte>, g: seq<byte>, p: nat)
    requires Holds(m, at, f) && |m'| == |m| && |g| > 0 && p == at + |g| - 1 < |m| && (|g| == |f| || |g| == |f| + 1)
    requires g[..|g| - 1] == f[..|g| - 1] && m'[p] == Some(g[|g| - 1]) && forall i :: 0 <= i < |m| && i != p ==> m'[i] == m[i]
    ensures Holds(m', at, g)
  {
    forall i | 0 <= i < |g| ensures m'[at + i] == Some(g[i]) {
      if i < |g| - 1 { assert m[at + i] == Some(f[i]) && g[..|g| - 1][i] == g[i] && f[..|g| - 1][i] == f[i]; }
    }
  }

  /** The values of a code, one argument at a time. */
  method WriteValues(m: Memory, outputpos: nat, code: char, args: seq<Arg>) returns (m': Memory, end: nat)
    requires Width(code) > 0 && Proper(args) && outputpos + |args| * Width(code) <= |m|
    ensures end == outputpos + |args| * Width(code) && |m'| == |m| && Holds(m', outputpos, ValueFields(code, args))
    ensures forall i :: 0 <= i < |m| && (i < outputpos || i >= end) ==> m'[i] == m[i]
  {
    hide Width, ValueField;
    m', end := m, outputpos;
    for k := 0 to |args|
      invariant |m'| == |m| && end == outputpos + |ValueFields(code, args[..k])| && Holds(m', outputpos, ValueFields(code, args[..k]))
      invariant forall i :: 0 <= i < |m| && (i < outputpos || i >= end) ==> m'[i] == m[i]
    {
      assert args[..k + 1][..k] == args[..k] && args[..k + 1][k] == args[k];
      Times(k, |args|, Width(code));
      ghost var before := m';
      m' := Store(m', end, ValueField(code, args[k]));
      HoldsBoth(before, m', outputpos, ValueFields(code, args[..k]), ValueField(code, args[k]));
      end := end + Width(code);
    }
    assert args[..|args|] == args;
  }

  lemma Times(k: nat, n: nat, w: nat)
    requires k < n
    ensures k * w + w <= n * w
  {
    Monotone(k + 1, n, w);
    assert (k + 1) * w == k * w + w;
  }

  lemma {:induction false} HoldsBoth(m: Memory, m': Memory, at: nat, a: seq<byte>, b: seq<byte>)
    requires Holds(m, at, a) && |m'| == |m| && Holds(m', at + |a|, b) && forall i :: 0 <= i < at + |a| ==> m'[i] == m[i]
    ensures Holds(m', at, a + b)
  {
    forall i | 0 <= i < |a + b| ensures m'[at + i] == Some((a + b)[i]) {
      if i < |a| { assert m[at + i] == Some(a[i]); } else { assert m'[at + |a| + (i - |a|)] == Some(b[i - |a|]); }
    }
  }

  /** Text, first filled with padding and then copied over it. */
  method WriteText(m: Memory, outputpos: nat, code: char, text: seq<byte>, arg: nat) returns (m': Memory)
    requires outputpos + arg <= |m|
    ensures |m'| == |m| && Holds(m', outputpos, TextField(code, text, arg))
    ensures forall i :: 0 <= i < |m| && (i < outputpos || i >= outputpos + arg) ==> m'[i] == m[i]
  {
    var keep := if code != 'Z' then arg else if arg == 0 then 0 else arg - 1;
    var n := if |text| < keep then |text| else keep;
    var padding := seq(arg, _ => if code == 'A' then 32 else 0);
    m' := Store(m, outputpos, padding);
    ghost var before := m';
    m' := Store(m', outputpos, text[..n]);
    ghost var f := TextField(code, text, arg);
    forall i | 0 <= i < |f| ensures m'[outputpos + i] == Some(f[i]) {
      if i >= n { assert before[outputpos + i] == Some(padding[i]); }
    }
  }

  /** One directive. */
  method WriteOne(m: Memory, outputpos: nat, currentarg: nat, d: Directive, args: seq<Arg>, ghost o: Out)
      returns (m': Memory, pos: nat, current: nat)
    requires Known(d.code) && d.arg >= 0 && Proper(args) && o.pos <= |o.buf| && o.current + Takes(d) <= |args|
    requires outputpos == o.pos && currentarg == o.current && Holds(m, 0, o.buf) && |Write(o, d, args).buf| < |m|
    ensures var w := Write(o, d, args); |m'| == |m| && Holds(m', 0, w.buf) && pos == w.pos && current == w.current
  {
    hide Overlay, HexField, ValueFields, TextField, Width;
    m', pos, current := m, outputpos, currentarg;
    if d.code == 'X' {
      pos := if outputpos < d.arg then 0 else outputpos - d.arg;
    } else if d.code == '@' {
      if d.arg > outputpos {
        m' := Store(m, outputpos, Zeros(d.arg - outputpos));
        HoldsOverlay(m, m', o.buf, outputpos, Zeros(d.arg - outputpos));
      }
      pos := d.arg;
    } else {
      ghost var f := Field(d, args, currentarg);
      if d.code == 'x' {
        m' := Store(m, outputpos, Zeros(d.arg));
        pos := outputpos + d.arg;
      } else if Hexadecimal(d.code) {
        var text := args[currentarg].text;
        m', pos := WriteHex(m, outputpos, d.code, if d.arg < |text| then text[..d.arg] else text);
        current := currentarg + 1;
      } else if Textual(d.code) {
        m' := WriteText(m, outputpos, d.code, args[currentarg].text, d.arg);
        pos := outputpos + d.arg;
        current := currentarg + 1;
      } else {
        m', pos := WriteValues(m, outputpos, d.code, args[currentarg..currentarg + d.arg]);
        current := currentarg + d.arg;
      }
      HoldsOverlay(m, m', o.buf, outputpos, f);
    }
  }

  lemma {:induction false} OneMore(ds: seq<Directive>, i: nat, args: seq<Arg>)
    requires Enough(ds, args) && i < |ds| && Sizes(ds).Some?
    ensures Enough(ds[..i], args) && Enough(ds[..i + 1], args) && WriteAll(ds[..i], args).current + Takes(ds[i]) <= |args|
    ensures WriteAll(ds[..i + 1], args) == Write(WriteAll(ds[..i], args), ds[i], args)
    ensures |WriteAll(ds[..i + 1], args).buf| <= Sizes(ds).value.1
  {
    hide Write;
    EnoughPrefix(ds, i, args);
    EnoughPrefix(ds, i + 1, args);
    var more := ds[..i + 1];
    assert more[..i] == ds[..i] && more[i] == ds[i];
    EnoughFront(more, args);
    SizesGrow(ds, i + 1);
    WritesFit(more, args);
  }

  lemma {:induction false} EnoughPrefix(ds: seq<Directive>, i: nat, args: seq<Arg>)
    requires Enough(ds, args) && i <= |ds|
    ensures Enough(ds[..i], args)
  {
    forall k | 0 <= k <= i ensures 0 <= Taken(ds[..i][..k]) <= |args| { assert ds[..i][..k] == ds[..k]; }
  }

  lemma {:induction false} SizesGrow(ds: seq<Directive>, i: nat)
    requires Settled(ds) && i <= |ds| && Sizes(ds).Some?
    ensures Sizes(ds[..i]).Some? && Sizes(ds[..i]).value.1 <= Sizes(ds).value.1
    decreases |ds| - i
  {
    if i < |ds| {
      SizesGrow(ds, i + 1);
      assert ds[..i + 1][..i] == ds[..i];
    } else {
      assert ds[..i] == ds;
    }
  }

  /** A result, an error reported to the caller, or an allocation whose size has overflowed and
      which ends the program. */
  datatype Packing = Packed(bytes: seq<byte>) | Rejected | Exhausted

  /** Packs the arguments as the format says. It reports an error exactly when the format does not
      fit the arguments or a directive is refused, and runs out of memory exactly when the size
      computed is the largest int, which leaves no room for the final zero. Otherwise every write
      is inside the memory that was sized, and every byte of the result has been written. */
  method Pack(format: string, args: seq<Arg>) returns (result: Packing)
    requires Proper(args)
    ensures var ds := Directives(format, 0, args, 0);
            if ds.None? then result == Rejected else
            && Enough(ds.value, args)
            && result == if Sizes(ds.value).None? then Rejected
                         else if Sizes(ds.value).value.1 == INT_MAX then Exhausted
                         else var o := WriteAll(ds.value, args); Packed(o.buf[..o.pos])
  {
    hide Directives, Sizes, Write, Enough, Holds;
    var found := ReadFormat(format, args);
    if found.None? { return Rejected; }
    var ds := found.value;
    EnoughSettled(ds, args);
    var size := FindSize(ds);
    if size.None? { return Rejected; }
    var room := ToInt(size.value + 1);
    if room < 0 { return Exhausted; }
    var output: Memory := seq(room, _ => None);
    var outputpos, currentarg := 0, 0;
    EnoughPrefix(ds, 0, args);
    ghost var o := WriteAll(ds[..0], args);
    HoldsNothing(output, 0, o.buf);
    for i := 0 to |ds|
      invariant |output| == size.value + 1 && Enough(ds[..i], args) && o == WriteAll(ds[..i], args)
      invariant outputpos == o.pos && currentarg == o.current && Holds(output, 0, o.buf)
    {
      OneMore(ds, i, args);
      output, outputpos, currentarg := WriteOne(output, outputpos, currentarg, ds[i], args, o);
      o := Write(o, ds[i], args);
    }
    assert ds[..|ds|] == ds;
    WritesFit(ds, args);
    var packed := Finish(output, outputpos, o.buf);
    result := Packed(packed);
  }

  lemma {:induction false} EnoughSettled(ds: seq<Directive>, args: seq<Arg>)
    requires Enough(ds, args)
    ensures Settled(ds) && forall i :: 0 <= i < |ds| ==> Known(ds[i].code) && ds[i].arg >= 0
  {}

  lemma {:induction false} LargestInt(format: string)
    requires |format| == 11 && format[1..] == "2147483647"
    ensures Repeat(format, 1) == (INT_MAX, 11)
  {
    forall k | 1 <= k < 11 ensures IsDigit(format[k]) { assert format[k] == format[1..][k - 1]; }
    DigitsToEnd(format, 1);
    DecimalOfMax();
    assert format[1..11] == "2147483647";
  }

  lemma {:induction false} DigitsToEnd(format: string, i: nat)
    requires i <= |format| && forall k :: i <= k < |format| ==> IsDigit(format[k])
    ensures DigitsEnd(format, i) == |format|
    decreases |format| - i
  {
    if i < |format| { DigitsToEnd(format, i + 1); }
  }

  lemma {:induction false} DecimalOfMax()
    ensures forall k :: 0 <= k < 10 ==> IsDigit("2147483647"[k])
    ensures Decimal("2147483647") == INT_MAX
  {
    hide Decimal;
    EmptyDecimal();
    DecimalStep("", 2);
    assert "" + [(2 + 48) as char] == "2";
    DecimalStep("2", 1);
    assert "2" + [(1 + 48) as char] == "21";
    DecimalStep("21", 4);
    assert "21" + [(4 + 48) as char] == "214";
    DecimalStep("214", 7);
    assert "214" + [(7 + 48) as char] == "2147";
    DecimalStep("2147", 4);
    assert "2147" + [(4 + 48) as char] == "21474";
    DecimalStep("21474", 8);
    assert "21474" + [(8 + 48) as char] == "214748";
    DecimalStep("214748", 3);
    assert "214748" + [(3 + 48) as char] == "2147483";
    DecimalStep("2147483", 6);
    assert "2147483" + [(6 + 48) as char] == "21474836";
    DecimalStep("21474836", 4);
    assert "21474836" + [(4 + 48) as char] == "214748364";
    DecimalStep("214748364", 7);
    assert "214748364" + [(7 + 48) as char] == "2147483647";
  }

  lemma {:induction false} EmptyDecimal()
    ensures Decimal("") == 0
  {}

  lemma {:induction false} DecimalStep(s: string, digit: nat)
    requires digit < 10 && forall i :: 0 <= i < |s| ==> IsDigit(s[i])
    ensures var t := s + [(digit + 48) as char];
            (forall i :: 0 <= i < |t| ==> IsDigit(t[i])) && Decimal(t) == 10 * Decimal(s) + digit
  {
    var t := s + [(digit + 48) as char];
    assert t[..|s|] == s;
  }

  /** Two formats at the top of the range: one whose result would be a byte too large to allocate,
      and one that is refused although it needs only 2^30 bytes. */
  lemma {:induction false} TopOfRange(a: Arg)
    requires Proper([a])
    ensures Directives("x2147483647", 0, [], 0) == Some([Directive('x', INT_MAX)])
    ensures Sizes([Directive('x', INT_MAX)]) == Some((INT_MAX, INT_MAX))
    ensures Directives("h2147483647", 0, [a], 0) == Some([Directive('h', INT_MAX)])
    ensures Sizes([Directive('h', INT_MAX)]).None? && Needs(Directive('h', INT_MAX)) == 1073741824
  {
    hide Directives, Sizes, Settle, Repeat, Moves;
    SettledLarge(a);
    OneLarge("x2147483647", [], Directive('x', INT_MAX));
    OneLarge("h2147483647", [a], Directive('h', INT_MAX));
    OneSize(Directive('x', INT_MAX));
    OneSize(Directive('h', INT_MAX));
  }

  lemma {:induction false} SettledLarge(a: Arg)
    requires Proper([a]) && Proper([])
    ensures Settle('x', INT_MAX, [], 0) == Some(Directive('x', INT_MAX)) && Settle('h', INT_MAX, [a], 0) == Some(Directive('h', INT_MAX))
    ensures Moves(0, Directive('x', INT_MAX)) == Some(INT_MAX) && Moves(0, Directive('h', INT_MAX)).None?
  {}

  lemma {:induction false} OneLarge(format: string, args: seq<Arg>, d: Directive)
    requires |format| == 11 && format[1..] == "2147483647" && Proper(args) && Settle(format[0], INT_MAX, args, 0) == Some(d)
    ensures Directives(format, 0, args, 0) == Some([d])
  {
    hide Repeat, Settle;
    LargestInt(format);
    assert Directives(format, 11, args, Takes(d)) == Some([]);
    assert [d] + [] == [d];
  }

  lemma {:induction false} OneSize(d: Directive)
    requires 0 <= d.arg <= INT_MAX && Known(d.code)
    ensures Sizes([d]) == if Moves(0, d).None? then None else Some((Moves(0, d).value, Moves(0, d).value))
  {
    hide Moves;
    assert [d][..0] == [] && Sizes([]) == Some((0, 0));
  }

  /** Ends the result with a zero and hands over what lies before the cursor. */
  method Finish(output: Memory, outputpos: nat, ghost buf: seq<byte>) returns (packed: seq<byte>)
    requires outputpos < |output| && outputpos <= |buf| && Holds(output, 0, buf)
    ensures packed == buf[..outputpos]
  {
    var ended := output[outputpos := Some(0)];
    forall k | 0 <= k < outputpos ensures ended[k] == Some(buf[k]) { assert output[0 + k] == Some(buf[k]); }
    packed := seq(outputpos, k requires 0 <= k < outputpos && ended[k].Some? => ended[k].value);
  }
}
